/** What every event does to the string cache that a sequential multikey quicksort
    job shares with its child jobs (src/parallel/bingmann-parallel_mkqs.hpp). */
module SharedCache {
  import opened CachedInsertion
  import opened CacheSort
  import opened Cells
  import opened CleanCaches
  import opened Desks
  import opened Jobs
  import opened MakeSteps
  import opened Partition
  import opened Pieces
  import opened Potential
  import opened StableSort
  import opened Steps
  import opened Stores
  import opened Strings

  const G_INSSORT_THRESHOLD := 32

  // --------------------------------------------------------------- a step

  function NewStep(at: nat, n: nat, depth: nat, lt: nat, eq: nat, gt: nat, pivot: nat): (s: Step) {
    MkqsStep(at, n, false, depth, 0, lt, eq, gt, pivot % 256 != 0, 0, 0, 0)
  }

  lemma TernaryInOrder(t: seq<Str>, depth: nat, pivot: nat, lt: nat, eq: nat, gt: nat, maxLt: nat, minGt: nat)
    requires SharePrefix(t, depth) && Partitioned(t, depth, pivot, lt, eq, gt, maxLt, minGt)
    ensures forall p, q | 0 <= p < q < |t| && TernaryHead(0, lt, eq, p) != TernaryHead(0, lt, eq, q) :: Leq(t[p], t[q])
  {
    hide K, Leq, Less, Agree;
    forall p, q | 0 <= p < q < |t| && TernaryHead(0, lt, eq, p) != TernaryHead(0, lt, eq, q) ensures Leq(t[p], t[q]) {
      assert Agree(t[p], t[q], depth);
      KeyLess(t[p], t[q], depth);
      LeqTotal(t[p], t[q]);
    }
  }

  lemma KeysInPart(keys: seq<nat>, at: nat, t: seq<Str>, depth: nat, i: nat, j: nat)
    requires KeysIn(keys, at, t, depth) && i <= j <= |t|
    ensures KeysIn(keys, at + i, t[i..j], depth)
  {
    hide K;
    forall k | 0 <= k < j - i ensures keys[at + i + k] == K(t[i..j][k], depth) {
      assert keys[at + (i + k)] == K(t[i + k], depth);
    }
  }

  /** A partition of a piece is what its split into three pieces needs. */
  lemma SplitFitsFrom(t: seq<Str>, keys: seq<nat>, at: nat, depth: nat, pivot: nat, lt: nat, eq: nat, gt: nat, maxLt: nat, minGt: nat)
    requires SharePrefix(t, depth) && KeysIn(keys, at, t, depth) && Partitioned(t, depth, pivot, lt, eq, gt, maxLt, minGt)
    ensures SplitFits(t, keys, at, depth, lt, eq, gt, pivot % 256 == 0)
  {
    hide K, Leq, SharePrefix, KeysIn, SameText, Partitioned, TernaryHead, TernaryKeys, SameKeys;
    PartitionedSizes(t, depth, pivot, lt, eq, gt, maxLt, minGt);
    TernaryInOrder(t, depth, pivot, lt, eq, gt, maxLt, minGt);
    TernaryKeyed(t, depth, pivot, lt, eq, gt, maxLt, minGt);
    ShareSlice(t, depth, 0, lt);
    ShareSlice(t, depth, lt, lt + eq);
    ShareSlice(t, depth, lt + eq, |t|);
    KeysInPart(keys, at, t, depth, 0, lt);
    KeysInPart(keys, at, t, depth, lt + eq, |t|);
    assert t[..lt] == t[0..lt] && t[lt + eq..] == t[lt + eq..|t|];
    var e := t[lt..lt + eq];
    if pivot % 256 == 0 {
      SameKeysFinished(e, depth, pivot);
      SameTextsSame(e, depth + KeyDepth(pivot, 8));
    } else {
      SameKeysDeeper(e, depth, pivot);
    }
  }

  lemma SameTextsSame(s: seq<Str>, n: nat)
    requires SameTexts(s, n)
    ensures SameText(s)
  {
  }

  /** MKQSStep::MKQSStep() */
  method MakeStep(strs: array<Str>, keys: array<nat>, at: nat, n: nat, depth: nat, dirty: bool, ghost s: seq<Str>)
    returns (step: Step, ghost t: seq<Str>)
    requires G_INSSORT_THRESHOLD <= n == |s| && Holds(strs, at, s) && at + n <= keys.Length && SharePrefix(s, depth)
    requires !dirty ==> KeysAt(keys, at, s, depth)
    modifies strs, keys
    ensures Holds(strs, at, t) && |t| == n && multiset(t) == multiset(s) && SameElsewhere(strs, keys, at, n)
    ensures ThreeParts(step) && step.idx == 0 && step.lo == at && step.n == n && step.depth == depth
    ensures SplitFits(t, keys[..], at, depth, step.numLt, step.numEq, step.numGt, !step.eqRecurse)
  {
    hide K, Partitioned, SharePrefix, SplitFits, KeysIn;
    if dirty {
      FillCache(strs, keys, at, n, depth, s);
    }
    var pivot, lt, eq, gt, maxLt, minGt;
    pivot, lt, eq, gt, maxLt, minGt, t := PartitionStep(strs, keys, at, n, depth, s);
    step := NewStep(at, n, depth, lt, eq, gt, pivot);
    assert |multiset(t)| == |multiset(s)|;
    SharePermuted(s, t, depth);
    KeysInAt(keys, at, t, depth);
    SplitFitsFrom(t, keys[..], at, depth, pivot, lt, eq, gt, maxLt, minGt);
    PartitionedSizes(t, depth, pivot, lt, eq, gt, maxLt, minGt);
  }

  lemma PartitionedSizes(t: seq<Str>, depth: nat, pivot: nat, lt: nat, eq: nat, gt: nat, maxLt: nat, minGt: nat)
    requires Partitioned(t, depth, pivot, lt, eq, gt, maxLt, minGt)
    ensures lt + eq + gt == |t| && eq > 0
  {
  }

  // ---------------------------------------------------- memory and pieces

  /** Output array, string cache and cached keys. */
  datatype Arrays = Arrays(out: seq<Str>, strs: seq<Str>, keys: seq<nat>)

  /** The strings at [lo, lo + |whole|) that the job sorts, no text longer than
      limit, no area larger than size, no job of a larger rank. */
  datatype Quest = Quest(lo: nat, whole: seq<Str>, limit: nat, size: nat, rank: nat)

  ghost predicate KeptOutside<T>(a0: seq<T>, a: seq<T>, lo: nat, n: nat) {
    |a| == |a0| && forall p | 0 <= p < |a| && !(lo <= p < lo + n) :: a[p] == a0[p]
  }

  /** Written positions have their string in the output, others in the cache. */
  ghost predicate Stored(b: Board, a: Arrays)
    requires Shaped(b)
  {
    && |a.out| == |a.strs| == |b.val| && b.keys == a.keys
    && forall p | 0 <= p < |b.val| :: b.val[p] == if b.lo <= p < b.hi && b.written[p] then a.out[p] else a.strs[p]
  }

  ghost predicate OnQuest(b: Board, q: Quest)
    requires Shaped(b)
  {
    && b.lo == q.lo && b.hi == q.lo + |q.whole| && Short(q.whole, q.limit) && |q.whole| <= q.size
    && multiset(b.val[b.lo..b.hi]) == multiset(q.whole)
  }

  ghost predicate RanksOk(d: Desk, q: Quest) {
    && (forall s | s in d.stack :: Rank(q.limit, q.size, s.depth, s.n) <= q.rank)
    && (forall at | at in d.jobs && at in d.b.open ::
          d.b.open[at].same || Rank(q.limit, q.size, d.jobs[at].depth, d.jobs[at].n) < q.rank)
  }

  /** No job is made for equal texts. */
  ghost predicate NoSame(d: Desk) {
    forall at | at in d.jobs && at in d.b.open :: !d.b.open[at].same
  }

  ghost predicate Frame(q: Quest, a0: Arrays, a: Arrays) {
    && KeptOutside(a0.out, a.out, q.lo, |q.whole|) && KeptOutside(a0.strs, a.strs, q.lo, |q.whole|)
    && KeptOutside(a0.keys, a.keys, q.lo, |q.whole|)
  }

  ghost predicate Work(d: Desk, q: Quest, a0: Arrays, a: Arrays) {
    DeskOk(d) && Shaped(d.b) && Stored(d.b, a) && OnQuest(d.b, q) && RanksOk(d, q) && Frame(q, a0, a)
  }

  /** val with [at, at + n) taken from src. */
  ghost function Patch(val: seq<Str>, src: seq<Str>, at: nat, n: nat): (r: seq<Str>)
    requires at + n <= |val| == |src|
    ensures |r| == |val| && forall p | 0 <= p < |val| :: r[p] == if at <= p < at + n then src[p] else val[p]
  {
    val[..at] + src[at..at + n] + val[at + n..]
  }

  lemma PatchSlice(val: seq<Str>, src: seq<Str>, at: nat, n: nat, t: seq<Str>)
    requires at + n <= |val| == |src| && |t| == n && forall i | 0 <= i < n :: src[at + i] == t[i]
    ensures Patch(val, src, at, n)[at..at + n] == t
  {
    var r := Patch(val, src, at, n)[at..at + n];
    forall i | 0 <= i < n ensures r[i] == t[i] {
      assert src[at + i] == t[i];
    }
  }

  /** Rearranging inside a piece rearranges the whole area. */
  lemma AreaPermuted(val: seq<Str>, val': seq<Str>, lo: nat, hi: nat, at: nat, n: nat)
    requires lo <= at && at + n <= hi <= |val| == |val'|
    requires forall p | lo <= p < hi && !(at <= p < at + n) :: val'[p] == val[p]
    requires multiset(val'[at..at + n]) == multiset(val[at..at + n])
    ensures multiset(val'[lo..hi]) == multiset(val[lo..hi])
  {
    assert val[lo..hi] == val[lo..at] + val[at..at + n] + val[at + n..hi];
    assert val'[lo..hi] == val'[lo..at] + val'[at..at + n] + val'[at + n..hi];
    assert val[lo..at] == val'[lo..at] && val[at + n..hi] == val'[at + n..hi];
  }

  /** The cached strings [at, at + n) became t, in or out of order; src is the
      array that holds them now. */
  ghost predicate Sorts(b: Board, a: Arrays, a': Arrays, src: seq<Str>, at: nat, n: nat, t: seq<Str>)
    requires Shaped(b)
  {
    && at + n <= |b.val| && |t| == n && multiset(t) == multiset(b.val[at..at + n])
    && |src| == |b.val| && (forall i | 0 <= i < n :: src[at + i] == t[i])
    && KeptOutside(a.strs, a'.strs, at, n) && KeptOutside(a.keys, a'.keys, at, n) && KeptOutside(a.out, a'.out, at, n)
  }

  lemma MovedBy(b: Board, a: Arrays, a': Arrays, src: seq<Str>, at: nat, n: nat, t: seq<Str>)
    requires Shaped(b) && Stored(b, a) && Sorts(b, a, a', src, at, n, t)
    ensures Moved(b, Patch(b.val, src, at, n), a'.keys, at, n)
    ensures Patch(b.val, src, at, n)[at..at + n] == t
  {
    PatchSlice(b.val, src, at, n, t);
  }

  /** b' is b with the strings of one area replaced; w tells where they are. */
  ghost predicate Replaced(b: Board, b': Board, src: seq<Str>, keys: seq<nat>, at: nat, n: nat, w: bool)
    requires Shaped(b)
  {
    && at + n <= |b.val| == |src| && b.lo <= at && at + n <= b.hi
    && b'.lo == b.lo && b'.hi == b.hi && b'.val == Patch(b.val, src, at, n) && b'.keys == keys
    && |b'.written| == |b.written| == |b'.head| == |b'.keys|
    && (forall p | 0 <= p < |b.written| :: b'.written[p] == if at <= p < at + n then w else b.written[p])
  }

  lemma StoredAfter(b: Board, b': Board, a: Arrays, a': Arrays, at: nat, n: nat, w: bool, t: seq<Str>)
    requires Shaped(b) && Stored(b, a) && Sorts(b, a, a', if w then a'.out else a'.strs, at, n, t)
    requires Replaced(b, b', if w then a'.out else a'.strs, a'.keys, at, n, w)
    ensures Shaped(b') && Stored(b', a')
  {
  }

  lemma QuestAfter(b: Board, b': Board, q: Quest, a: Arrays, a': Arrays, src: seq<Str>, at: nat, n: nat, w: bool, t: seq<Str>)
    requires Shaped(b) && OnQuest(b, q) && Sorts(b, a, a', src, at, n, t) && Replaced(b, b', src, a'.keys, at, n, w) && Shaped(b')
    ensures OnQuest(b', q)
  {
    hide Short;
    PatchSlice(b.val, src, at, n, t);
    AreaPermuted(b.val, b'.val, b.lo, b.hi, at, n);
  }

  lemma FrameAfter(q: Quest, a0: Arrays, a: Arrays, a': Arrays, at: nat, n: nat)
    requires Frame(q, a0, a) && q.lo <= at && at + n <= q.lo + |q.whole|
    requires KeptOutside(a.strs, a'.strs, at, n) && KeptOutside(a.keys, a'.keys, at, n) && KeptOutside(a.out, a'.out, at, n)
    ensures Frame(q, a0, a')
  {
  }

  /** The memory side of replacing one area. */
  lemma WorkMemory(b: Board, b': Board, q: Quest, a0: Arrays, a: Arrays, a': Arrays, at: nat, n: nat, w: bool, t: seq<Str>)
    requires Shaped(b) && Stored(b, a) && OnQuest(b, q) && Frame(q, a0, a)
    requires Sorts(b, a, a', if w then a'.out else a'.strs, at, n, t)
    requires Replaced(b, b', if w then a'.out else a'.strs, a'.keys, at, n, w)
    ensures Shaped(b') && Stored(b', a') && OnQuest(b', q) && Frame(q, a0, a')
  {
    StoredAfter(b, b', a, a', at, n, w, t);
    QuestAfter(b, b', q, a, a', if w then a'.out else a'.strs, at, n, w, t);
    FrameAfter(q, a0, a, a', at, n);
  }

  ghost function NextAt(d: Desk): (at: nat)
    requires d.stack != []
  {
    PartAt(d.stack[|d.stack| - 1], d.stack[|d.stack| - 1].idx)
  }

  ghost function NextLen(d: Desk): (n: nat)
    requires d.stack != []
  {
    PartLen(d.stack[|d.stack| - 1], d.stack[|d.stack| - 1].idx)
  }

  ghost predicate AtNext(d: Desk) {
    d.pop < |d.stack| && d.stack[|d.stack| - 1].idx < 3
  }

  ghost function SettledBoard(d: Desk, a': Arrays): (b': Board)
    requires d.stack != [] && Shaped(d.b) && NextAt(d) in d.b.open && NextAt(d) + NextLen(d) <= |d.b.val| == |a'.strs|
  {
    Settle(d.b, NextAt(d), Patch(d.b.val, a'.strs, NextAt(d), NextLen(d)), a'.keys, false)
  }

  lemma NextOpen(d: Desk)
    requires DeskOk(d) && AtNext(d) && NextLen(d) > 0
    ensures Shaped(d.b) && NextAt(d) in d.b.open && d.b.open[NextAt(d)].n == NextLen(d)
    ensures d.b.lo <= NextAt(d) && NextAt(d) + NextLen(d) <= d.fin <= d.b.hi <= |d.b.val|
    ensures forall p | NextAt(d) <= p < NextAt(d) + NextLen(d) :: !d.b.written[p]
    ensures Fit(d.b.val[NextAt(d)..NextAt(d) + NextLen(d)], d.b.keys, NextAt(d), PieceOf(d.stack[|d.stack| - 1], d.stack[|d.stack| - 1].idx))
  {
    hide Fit, PartAt, PartLen, StackOpen, JobsOpen, GivenFrom, Chained;
    BoardShape(d.b);
    NextPiece(d);
    PieceLength(d.stack[|d.stack| - 1], d.stack[|d.stack| - 1].idx);
  }

  lemma PieceLength(s: Step, j: nat)
    ensures PieceOf(s, j).n == PartLen(s, j)
  {
  }

  lemma RanksStarted(d: Desk, b': Board, q: Quest)
    requires RanksOk(d, q) && d.stack != [] && forall at | at in d.jobs && at in b'.open :: at in d.b.open && b'.open[at] == d.b.open[at]
    ensures RanksOk(Started(d, b'), q)
  {
    hide Rank;
    forall s | s in Bumped(d.stack) ensures Rank(q.limit, q.size, s.depth, s.n) <= q.rank {
      var k :| 0 <= k < |d.stack| && Bumped(d.stack)[k] == s;
      assert d.stack[k] in d.stack;
    }
  }

  lemma SettleOthers(b: Board, at: nat, val: seq<Str>, keys: seq<nat>, w: bool)
    requires BoardOk(b) && at in b.open && |val| == |b.val| && |keys| == |b.keys|
    ensures Shaped(b) && Shaped(Settle(b, at, val, keys, w)) && OthersSame(b, Settle(b, at, val, keys, w), at, b.open[at].n)
    ensures forall x | at <= x < at + b.open[at].n :: x !in Settle(b, at, val, keys, w).open
  {
    BoardShape(b);
    FitNonEmpty(b, at);
    forall x | at <= x < at + b.open[at].n && x in b.open ensures x == at {
      if x != at {
        Apart(b, at, x);
        FitNonEmpty(b, x);
      }
    }
  }

  lemma SettledDesk(d: Desk, a': Arrays)
    requires DeskOk(d) && AtNext(d) && NextLen(d) > 0 && Shaped(d.b) && |a'.strs| == |d.b.val|
    requires NextAt(d) in d.b.open && d.b.open[NextAt(d)].n == NextLen(d) && NextAt(d) + NextLen(d) <= |d.b.val|
    requires Moved(d.b, Patch(d.b.val, a'.strs, NextAt(d), NextLen(d)), a'.keys, NextAt(d), NextLen(d))
    requires Sorted(Patch(d.b.val, a'.strs, NextAt(d), NextLen(d))[NextAt(d)..NextAt(d) + NextLen(d)])
    ensures DeskOk(Started(d, SettledBoard(d, a')))
  {
    hide DeskOk, Sorted, PartAt, PartLen, BoardOk, Patch;
    var at, b' := NextAt(d), SettledBoard(d, a');
    DeskBoard(d);
    SettleOk(d.b, at, b'.val, a'.keys, false);
    SettleOthers(d.b, at, b'.val, a'.keys, false);
    StartedSettled(d, b');
  }

  lemma SettledMemory(d: Desk, q: Quest, a0: Arrays, a: Arrays, a': Arrays, t: seq<Str>)
    requires d.stack != [] && Shaped(d.b) && Stored(d.b, a) && OnQuest(d.b, q) && Frame(q, a0, a)
    requires NextAt(d) in d.b.open && d.b.open[NextAt(d)].n == NextLen(d)
    requires Sorts(d.b, a, a', a'.strs, NextAt(d), NextLen(d), t)
    requires d.b.lo <= NextAt(d) && NextAt(d) + NextLen(d) <= d.b.hi
    ensures |a'.strs| == |d.b.val| && NextAt(d) + NextLen(d) <= |d.b.val|
    ensures var b' := SettledBoard(d, a'); Shaped(b') && Stored(b', a') && OnQuest(b', q) && Frame(q, a0, a')
  {
    hide PartAt, PartLen, Replaced, OnQuest, Frame;
    SettleReplaces(d.b, NextAt(d), a'.strs, a'.keys, false);
    WorkMemory(d.b, SettledBoard(d, a'), q, a0, a, a', NextAt(d), NextLen(d), false, t);
  }

  /** The next part was sorted in the cache. */
  lemma SettledWork(d: Desk, q: Quest, a0: Arrays, a: Arrays, a': Arrays, t: seq<Str>)
    requires Work(d, q, a0, a) && AtNext(d) && NextLen(d) > 0
    requires Sorts(d.b, a, a', a'.strs, NextAt(d), NextLen(d), t) && Sorted(t)
    ensures Shaped(d.b) && NextAt(d) in d.b.open && NextAt(d) + NextLen(d) <= |d.b.val| == |a'.strs|
    ensures Work(Started(d, SettledBoard(d, a')), q, a0, a')
  {
    hide DeskOk, RanksOk, Frame, OnQuest, Stored, Sorted, PartAt, PartLen, Sorts, Fit, Moved, Patch;
    NextOpen(d);
    MovedBy(d.b, a, a', a'.strs, NextAt(d), NextLen(d), t);
    SettledMemory(d, q, a0, a, a', t);
    SettledDesk(d, a');
    RanksStarted(d, SettledBoard(d, a'), q);
  }

  lemma DeskBoard(d: Desk)
    requires DeskOk(d)
    ensures BoardOk(d.b)
  {
  }

  lemma SortsLengths(b: Board, a: Arrays, a': Arrays, src: seq<Str>, at: nat, n: nat, t: seq<Str>)
    requires Shaped(b) && Sorts(b, a, a', src, at, n, t)
    ensures at + n <= |b.val| == |src| && multiset(t) == multiset(b.val[at..at + n]) && |t| == n
  {
  }

  lemma SettleReplaces(b: Board, at: nat, src: seq<Str>, keys: seq<nat>, w: bool)
    requires Shaped(b) && at in b.open && at + b.open[at].n <= |b.val| == |src| && |keys| == |b.keys|
    requires b.lo <= at && at + b.open[at].n <= b.hi
    ensures Replaced(b, Settle(b, at, Patch(b.val, src, at, b.open[at].n), keys, w), src, keys, at, b.open[at].n, w)
  {
  }

  ghost function SplitBoard(d: Desk, a': Arrays, s: Step): (b': Board)
    requires d.stack != [] && Shaped(d.b) && NextAt(d) in d.b.open && NextAt(d) + NextLen(d) <= |d.b.val| == |a'.strs|
    requires s.MkqsStep?
  {
    Split(d.b, NextAt(d), Patch(d.b.val, a'.strs, NextAt(d), NextLen(d)), a'.keys, s.numLt, s.numEq, s.numGt, !s.eqRecurse)
  }

  /** s was made of the next part. */
  ghost predicate StepOfNext(d: Desk, s: Step)
    requires d.stack != []
  {
    && ThreeParts(s) && s.idx == 0 && s.lo == NextAt(d) && s.n == NextLen(d)
    && s.depth == PieceOf(d.stack[|d.stack| - 1], d.stack[|d.stack| - 1].idx).depth
  }

  lemma SplitOthers(b: Board, at: nat, val: seq<Str>, keys: seq<nat>, s: Step)
    requires BoardOk(b) && at in b.open && |val| == |b.val| && |keys| == |b.keys|
    requires ThreeParts(s) && s.lo == at && s.n == b.open[at].n && s.depth == b.open[at].depth
    ensures var b' := Split(b, at, val, keys, s.numLt, s.numEq, s.numGt, !s.eqRecurse);
            && Shaped(b) && Shaped(b') && OthersSame(b, b', at, s.n)
            && (forall x | at <= x < at + s.n :: x in b'.open <==> x in PiecesOfStep(s))
            && (forall x | x in PiecesOfStep(s) :: x in b'.open && b'.open[x] == PiecesOfStep(s)[x])
  {
    hide BoardOk;
    BoardShape(b);
    FitNonEmpty(b, at);
    forall x | at <= x < at + b.open[at].n && x in b.open ensures x == at {
      if x != at {
        Apart(b, at, x);
        FitNonEmpty(b, x);
      }
    }
  }

  lemma SplitDesk(d: Desk, a': Arrays, s: Step)
    requires DeskOk(d) && AtNext(d) && NextLen(d) > 0 && Shaped(d.b) && |a'.strs| == |d.b.val|
    requires NextAt(d) in d.b.open && NextAt(d) + NextLen(d) <= |d.b.val| && StepOfNext(d, s)
    requires d.b.open[NextAt(d)] == PieceOf(d.stack[|d.stack| - 1], d.stack[|d.stack| - 1].idx)
    requires Moved(d.b, Patch(d.b.val, a'.strs, NextAt(d), NextLen(d)), a'.keys, NextAt(d), NextLen(d))
    requires SplitFits(Patch(d.b.val, a'.strs, NextAt(d), NextLen(d))[NextAt(d)..NextAt(d) + NextLen(d)],
                       a'.keys, NextAt(d), s.depth, s.numLt, s.numEq, s.numGt, !s.eqRecurse)
    requires forall p | NextAt(d) <= p < NextAt(d) + NextLen(d) :: !d.b.written[p]
    ensures DeskOk(Pushed(d, SplitBoard(d, a', s), s))
  {
    hide DeskOk, PartAt, PartLen, BoardOk, Patch, SplitFits, TernaryPieces, PiecesOfStep;
    var at, b' := NextAt(d), SplitBoard(d, a', s);
    PieceLength(d.stack[|d.stack| - 1], d.stack[|d.stack| - 1].idx);
    DeskBoard(d);
    SplitOk(d.b, at, b'.val, a'.keys, s.numLt, s.numEq, s.numGt, !s.eqRecurse);
    SplitOthers(d.b, at, b'.val, a'.keys, s);
    StartedPushed(d, b', s);
  }

  lemma SplitMemory(d: Desk, q: Quest, a0: Arrays, a: Arrays, a': Arrays, t: seq<Str>, s: Step)
    requires d.stack != [] && Shaped(d.b) && Stored(d.b, a) && OnQuest(d.b, q) && Frame(q, a0, a) && s.MkqsStep?
    requires NextAt(d) in d.b.open && d.b.open[NextAt(d)].n == NextLen(d)
    requires Sorts(d.b, a, a', a'.strs, NextAt(d), NextLen(d), t)
    requires d.b.lo <= NextAt(d) && NextAt(d) + NextLen(d) <= d.b.hi
    requires forall p | NextAt(d) <= p < NextAt(d) + NextLen(d) :: !d.b.written[p]
    ensures |a'.strs| == |d.b.val| && NextAt(d) + NextLen(d) <= |d.b.val|
    ensures var b' := SplitBoard(d, a', s); Shaped(b') && Stored(b', a') && OnQuest(b', q) && Frame(q, a0, a')
  {
    hide PartAt, PartLen, OnQuest, Frame, TernaryPieces;
    assert Replaced(d.b, SplitBoard(d, a', s), a'.strs, a'.keys, NextAt(d), NextLen(d), false);
    WorkMemory(d.b, SplitBoard(d, a', s), q, a0, a, a', NextAt(d), NextLen(d), false, t);
  }

  lemma RanksPushed(d: Desk, b': Board, q: Quest, s: Step)
    requires RanksOk(d, q) && d.stack != [] && forall at | at in d.jobs && at in b'.open :: at in d.b.open && b'.open[at] == d.b.open[at]
    requires Rank(q.limit, q.size, s.depth, s.n) <= q.rank
    ensures RanksOk(Pushed(d, b', s), q)
  {
    hide Rank;
    RanksStarted(d, b', q);
  }

  /** The rank of a waiting part is smaller than that of its step. */
  lemma WaitRank(d: Desk, q: Quest, a0: Arrays, a: Arrays, k: nat, j: nat)
    requires Work(d, q, a0, a) && Waits(d, k, j)
    ensures var s := d.stack[k]; var piece := PieceOf(s, j);
            && Rank(q.limit, q.size, s.depth, s.n) <= q.rank
            && (!piece.same ==> Rank(q.limit, q.size, piece.depth, piece.n) < Rank(q.limit, q.size, s.depth, s.n))
  {
    hide DeskOk, Frame, PartAt, Rank, Fit;
    var s := d.stack[k];
    assert s in d.stack;
    DeskSteps(d, k);
    var piece := PieceOf(s, j);
    if !piece.same {
      WaitOpen(d, k, j);
      DepthBelow(d.b, q, PartAt(s, j), piece);
      RankLess(q.limit, q.size, s.depth, s.n, piece.depth, piece.n);
    }
  }

  lemma WaitOpen(d: Desk, k: nat, j: nat)
    requires DeskOk(d) && Waits(d, k, j)
    ensures Shaped(d.b)
    ensures var s := d.stack[k];
              PartAt(s, j) in d.b.open && d.b.open[PartAt(s, j)] == PieceOf(s, j)
              && d.b.lo <= PartAt(s, j) && PartAt(s, j) + PieceOf(s, j).n <= d.b.hi
              && Fit(d.b.val[PartAt(s, j)..PartAt(s, j) + PieceOf(s, j).n], d.b.keys, PartAt(s, j), PieceOf(s, j))
  {
    hide Fit, PartAt, PartLen, PieceOf, Chained, JobsOpen, GivenFrom;
    BoardShape(d.b);
    assert PieceOk(d.b, PartAt(d.stack[k], j), PieceOf(d.stack[k], j));
  }

  lemma DeskSteps(d: Desk, k: nat)
    requires DeskOk(d) && k < |d.stack|
    ensures ThreeParts(d.stack[k])
  {
  }

  lemma DepthBelow(b: Board, q: Quest, at: nat, piece: Piece)
    requires Shaped(b) && OnQuest(b, q) && b.lo <= at && at + piece.n <= b.hi
    requires Fit(b.val[at..at + piece.n], b.keys, at, piece) && !piece.same
    ensures piece.depth <= q.limit && piece.n <= q.size
  {
    var x := b.val[at];
    assert x == b.val[at..at + piece.n][0];
    assert x == b.val[b.lo..b.hi][at - b.lo];
    assert x in multiset(b.val[b.lo..b.hi]);
    assert x in multiset(q.whole);
    assert |multiset(b.val[b.lo..b.hi])| == |multiset(q.whole)|;
  }

  /** The next part got a step of its own. */
  lemma PushedWork(d: Desk, q: Quest, a0: Arrays, a: Arrays, a': Arrays, t: seq<Str>, s: Step)
    requires Work(d, q, a0, a) && AtNext(d) && NextLen(d) > 0 && StepOfNext(d, s)
    requires !PieceOf(d.stack[|d.stack| - 1], d.stack[|d.stack| - 1].idx).same
    requires Sorts(d.b, a, a', a'.strs, NextAt(d), NextLen(d), t)
    requires SplitFits(t, a'.keys, NextAt(d), s.depth, s.numLt, s.numEq, s.numGt, !s.eqRecurse)
    ensures Shaped(d.b) && NextAt(d) in d.b.open && NextAt(d) + NextLen(d) <= |d.b.val| == |a'.strs|
    ensures Work(Pushed(d, SplitBoard(d, a', s), s), q, a0, a')
    ensures NoSame(d) ==> NoSame(Pushed(d, SplitBoard(d, a', s), s))
  {
    hide DeskOk, RanksOk, Frame, OnQuest, Stored, PartAt, PartLen, Sorts, Fit, Moved, Patch, SplitFits, Split, Rank;
    NextOpen(d);
    NextPieceIs(d);
    MovedBy(d.b, a, a', a'.strs, NextAt(d), NextLen(d), t);
    SplitMemory(d, q, a0, a, a', t, s);
    SplitDesk(d, a', s);
    WaitRank(d, q, a0, a, |d.stack| - 1, d.stack[|d.stack| - 1].idx);
    SplitJobs(d, a', s);
    RanksPushed(d, SplitBoard(d, a', s), q, s);
  }

  lemma NextPieceIs(d: Desk)
    requires DeskOk(d) && AtNext(d) && NextLen(d) > 0
    ensures NextAt(d) in d.b.open && d.b.open[NextAt(d)] == PieceOf(d.stack[|d.stack| - 1], d.stack[|d.stack| - 1].idx)
  {
    hide PartAt, PartLen, DeskOk;
    NextPiece(d);
  }

  /** Jobs are to the right of the new pieces. */
  lemma SplitJobs(d: Desk, a': Arrays, s: Step)
    requires DeskOk(d) && AtNext(d) && NextLen(d) > 0 && Shaped(d.b) && |a'.strs| == |d.b.val|
    requires NextAt(d) in d.b.open && NextAt(d) + NextLen(d) <= d.fin && NextAt(d) + NextLen(d) <= |d.b.val|
    requires d.b.open[NextAt(d)].n == NextLen(d) && StepOfNext(d, s)
    ensures var b' := SplitBoard(d, a', s); forall x | x in d.jobs && x in b'.open :: x in d.b.open && b'.open[x] == d.b.open[x]
  {
    hide PartAt, PartLen, BoardOk, StackOpen, GivenFrom, Chained;
  }

  /** An empty part was started. */
  lemma EmptyWork(d: Desk, q: Quest, a0: Arrays, a: Arrays)
    requires Work(d, q, a0, a) && AtNext(d) && NextLen(d) == 0
    ensures Work(Started(d, d.b), q, a0, a)
  {
    hide DeskOk, RanksOk, Frame, OnQuest, Stored, PartAt, PartLen, BoardOk;
    DeskBoard(d);
    StartedSettled(d, d.b);
    RanksStarted(d, d.b, q);
  }

  /** The next part's strings are all the same: nothing is done. */
  lemma SameWork(d: Desk, q: Quest, a0: Arrays, a: Arrays)
    requires Work(d, q, a0, a) && AtNext(d) && NextLen(d) > 0
    requires PieceOf(d.stack[|d.stack| - 1], d.stack[|d.stack| - 1].idx).same
    ensures Shaped(d.b) && NextAt(d) in d.b.open && NextAt(d) + NextLen(d) <= |d.b.val| == |a.strs|
    ensures Work(Started(d, SettledBoard(d, a)), q, a0, a)
  {
    hide DeskOk, RanksOk, Frame, OnQuest, PartAt, PartLen, SameText;
    NextOpen(d);
    var t := d.b.val[NextAt(d)..NextAt(d) + NextLen(d)];
    SameTextSorted(t);
    SettledWork(d, q, a0, a, a, t);
  }

  lemma SameTextSorted(t: seq<Str>)
    requires SameText(t)
    ensures Sorted(t)
  {
    hide Leq;
    forall i, j | 0 <= i < j < |t| ensures Leq(t[i], t[j]) {
      EqualTexts(t[i], t[j]);
    }
  }

  lemma PopWork(d: Desk, q: Quest, a0: Arrays, a: Arrays)
    requires Work(d, q, a0, a) && d.pop < |d.stack| && d.stack[|d.stack| - 1].idx == 3
    ensures Work(d.(stack := d.stack[..|d.stack| - 1]), q, a0, a)
  {
    hide DeskOk, Frame, OnQuest, Stored, Rank;
    PopOk(d);
  }

  /** The lowest live level was given away. */
  lemma FreeWork(d: Desk, q: Quest, a0: Arrays, a: Arrays)
    requires Work(d, q, a0, a) && d.pop < |d.stack|
    ensures Work(GivenAway(d), q, a0, a)
  {
    hide DeskOk, Frame, OnQuest, Stored, Rank, PartAt, PartLen, JobsOfStep, PieceOf;
    FreeOk(d);
    DeskSteps(d, d.pop);
    var s, d' := d.stack[d.pop], GivenAway(d);
    forall at | at in d'.jobs && at in d.b.open
      ensures d.b.open[at].same || Rank(q.limit, q.size, d'.jobs[at].depth, d'.jobs[at].n) < q.rank
    {
      if at in JobsOfStep(s) {
        var j := JobsOfStepOnly(s, at);
        JobsOfStepExact(s, j);
        assert Waits(d, d.pop, j);
        WaitOpen(d, d.pop, j);
        WaitRank(d, q, a0, a, d.pop, j);
      }
    }
  }

  ghost function WrittenBoard(b: Board, at: nat, a': Arrays): (b': Board)
    requires Shaped(b) && at in b.open && at + b.open[at].n <= |b.val| == |a'.out|
  {
    Settle(b, at, Patch(b.val, a'.out, at, b.open[at].n), a'.keys, true)
  }

  /** A piece that is someone else's was sorted and written to the output. */
  lemma ChildWork(d: Desk, q: Quest, a0: Arrays, a: Arrays, a': Arrays, at: nat, t: seq<Str>)
    requires Work(d, q, a0, a) && at in d.jobs && at in d.b.open
    requires Sorts(d.b, a, a', a'.out, at, d.b.open[at].n, t) && Sorted(t)
    ensures Shaped(d.b) && at + d.b.open[at].n <= |d.b.val| == |a'.out|
    ensures Work(d.(b := WrittenBoard(d.b, at, a'), jobs := d.jobs - {at}), q, a0, a')
  {
    hide DeskOk, Frame, OnQuest, Stored, Rank, Sorts, Sorted, Moved, BoardOk;
    DeskBoard(d);
    FitNonEmpty(d.b, at);
    var n := d.b.open[at].n;
    SortsLengths(d.b, a, a', a'.out, at, n, t);
    MovedBy(d.b, a, a', a'.out, at, n, t);
    SettleOk(d.b, at, Patch(d.b.val, a'.out, at, n), a'.keys, true);
    ChildOk(d, at, Patch(d.b.val, a'.out, at, n), a'.keys);
    KeysLength(d.b, a, a', a'.out, at, n, t);
    SettleReplaces(d.b, at, a'.out, a'.keys, true);
    WorkMemory(d.b, WrittenBoard(d.b, at, a'), q, a0, a, a', at, n, true, t);
  }

  lemma KeysLength(b: Board, a: Arrays, a': Arrays, src: seq<Str>, at: nat, n: nat, t: seq<Str>)
    requires Shaped(b) && Stored(b, a) && Sorts(b, a, a', src, at, n, t)
    ensures |a'.keys| == |b.keys|
  {
  }

  // ----------------------------------------------------------- the output

  /** [lo, cache_finished) was copied to the output. */
  ghost function Copied(d: Desk): (d': Desk)
    requires Shaped(d.b)
  {
    var b := d.b;
    d.(b := b.(written := seq(|b.written|, p requires 0 <= p < |b.written| => (b.lo <= p < d.fin) || b.written[p])), fin := b.lo)
  }

  lemma CopiedBoard(d: Desk)
    requires DeskOk(d) && d.pop == |d.stack|
    ensures Shaped(d.b) && BoardOk(Copied(d).b)
  {
    hide Fit, Leq, Chained, GivenFrom;
    BoardShape(d.b);
    var b, b' := d.b, Copied(d).b;
    forall at | at in b'.open ensures PieceOk(b', at, b'.open[at]) {
      assert PieceOk(b, at, b.open[at]);
    }
  }

  lemma CopiedDesk(d: Desk)
    requires DeskOk(d) && d.pop == |d.stack|
    ensures Shaped(d.b) && DeskOk(Copied(d))
  {
    hide Fit, Leq, PieceOk, Ordered, Headed, BoardOk, PartAt;
    CopiedBoard(d);
    BoardShape(d.b);
    OpenInside(d.b);
    forall at | at in d.b.open ensures d.fin <= at {
    }
  }

  lemma OpenInside(b: Board)
    requires BoardOk(b)
    ensures forall at | at in b.open :: b.lo <= at
  {
    forall at | at in b.open ensures b.lo <= at {
      FitNonEmpty(b, at);
    }
  }

  lemma CopyWork(d: Desk, q: Quest, a0: Arrays, a: Arrays, a': Arrays)
    requires Work(d, q, a0, a) && d.pop == |d.stack| && a'.strs == a.strs && a'.keys == a.keys && |a'.out| == |a.out|
    requires forall p | 0 <= p < |a.out| :: a'.out[p] == if q.lo <= p < d.fin then a.strs[p] else a.out[p]
    ensures Work(Copied(d), q, a0, a')
  {
    hide Rank, BoardOk, Chained, StackOpen, JobsOpen;
    CopiedDesk(d);
  }

  /** When the stack is empty or given away, the strings before cache_finished are
      sorted in the cache, and every position from there on is written or a job's. */
  lemma FinishedPrefix(d: Desk, q: Quest, a0: Arrays, a: Arrays)
    requires Work(d, q, a0, a) && d.pop == |d.stack|
    ensures q.lo <= d.fin <= q.lo + |q.whole| <= |a.strs| && Sorted(a.strs[q.lo..d.fin])
  {
    hide Rank, Chained, Leq, Fit;
    BoardShape(d.b);
    var s := a.strs[q.lo..d.fin];
    forall i, j | 0 <= i < j < |s| ensures Leq(s[i], s[j]) {
      var x, y := q.lo + i, q.lo + j;
      assert d.b.head[x] == x && d.b.head[y] == y;
      assert s[i] == d.b.val[x] && s[j] == d.b.val[y];
    }
  }

  /** Everything behind it is written out or belongs to a job that was given away. */
  lemma BehindFinished(d: Desk, q: Quest, a0: Arrays, a: Arrays)
    requires Work(d, q, a0, a) && d.pop == |d.stack|
    ensures q.lo <= d.fin <= q.lo + |q.whole| <= |a.strs| == |d.b.written|
    ensures forall p: nat | d.fin <= p < q.lo + |q.whole| ::
              d.b.written[p] || exists at :: at in d.jobs && at <= p < at + d.jobs[at].n
  {
    hide Rank, Chained, Leq, Fit;
    BoardShape(d.b);
    forall p: nat | d.fin <= p < q.lo + |q.whole| && !d.b.written[p] ensures exists at :: at in d.jobs && at <= p < at + d.jobs[at].n {
      var at: nat := d.b.head[p];
      assert PieceOk(d.b, at, d.b.open[at]);
      assert at in d.jobs && at <= p < at + d.jobs[at].n;
    }
  }

  lemma FitOf(s: seq<Str>, keys: seq<nat>, at: nat, depth: nat, dirty: bool)
    requires s != [] && SharePrefix(s, depth) && (!dirty ==> KeysIn(keys, at, s, depth))
    ensures Fit(s, keys, at, Piece(|s|, depth, dirty, false))
  {
  }

  /** When all jobs are done, the output area is sorted. */
  lemma AllWritten(d: Desk, q: Quest, a0: Arrays, a: Arrays)
    requires Work(d, q, a0, a) && d.pop == |d.stack| && d.jobs == map[] && d.fin == q.lo
    ensures q.lo + |q.whole| <= |a.out|
    ensures Sorted(a.out[q.lo..q.lo + |q.whole|]) && multiset(a.out[q.lo..q.lo + |q.whole|]) == multiset(q.whole)
  {
    hide Rank, BoardOk, Chained, Sorted, Headed, Ordered;
    OpenInside(d.b);
    assert d.b.open == map[];
    NoPieceLeft(d.b);
    assert a.out[q.lo..q.lo + |q.whole|] == d.b.val[d.b.lo..d.b.hi];
  }

  // ----------------------------------------------------------- first step

  /** The whole area as one open piece. */
  ghost function WholeBoard(lo: nat, n: nat, a: Arrays, piece: Piece): (b: Board) {
    Board(lo, lo + n, a.strs, seq(|a.strs|, p requires 0 <= p < |a.strs| => if lo <= p < lo + n then lo else p),
          map[lo := piece], a.keys, seq(|a.strs|, p requires 0 <= p < |a.strs| => false))
  }

  lemma WholeOk(lo: nat, n: nat, a: Arrays, piece: Piece, s: seq<Str>)
    requires lo + n <= |a.strs| == |a.keys| == |a.out| && piece.n == n == |s| && a.strs[lo..lo + n] == s && Fit(s, a.keys, lo, piece)
    ensures BoardOk(WholeBoard(lo, n, a, piece)) && Shaped(WholeBoard(lo, n, a, piece)) && Stored(WholeBoard(lo, n, a, piece), a)
  {
    hide Fit, Leq;
    var b := WholeBoard(lo, n, a, piece);
    assert PieceOk(b, lo, piece);
  }

  ghost function FirstDesk(b: Board, a': Arrays, s: Step): (d: Desk)
    requires Shaped(b) && s.MkqsStep? && s.lo in b.open && s.lo + s.n <= |b.val| == |a'.strs|
  {
    Desk(Split(b, s.lo, Patch(b.val, a'.strs, s.lo, s.n), a'.keys, s.numLt, s.numEq, s.numGt, !s.eqRecurse), [s], 0, s.lo + s.n, map[])
  }

  lemma FirstDeskOk(b: Board, a': Arrays, s: Step)
    requires BoardOk(b) && Shaped(b) && ThreeParts(s) && s.idx == 0 && b.lo == s.lo && b.hi == s.lo + s.n && |a'.strs| == |b.val|
    requires b.open.Keys == {s.lo} && b.open[s.lo].n == s.n && b.open[s.lo].depth == s.depth
    requires Moved(b, Patch(b.val, a'.strs, s.lo, s.n), a'.keys, s.lo, s.n)
    requires SplitFits(Patch(b.val, a'.strs, s.lo, s.n)[s.lo..s.lo + s.n], a'.keys, s.lo, s.depth, s.numLt, s.numEq, s.numGt, !s.eqRecurse)
    requires forall p | b.lo <= p < b.hi :: !b.written[p]
    ensures DeskOk(FirstDesk(b, a', s))
  {
    hide BoardOk, SplitFits, Patch, TernaryPieces, PieceOf, PiecesOfStep;
    var d := FirstDesk(b, a', s);
    SplitOk(b, s.lo, Patch(b.val, a'.strs, s.lo, s.n), a'.keys, s.numLt, s.numEq, s.numGt, !s.eqRecurse);
    SplitOthers(b, s.lo, Patch(b.val, a'.strs, s.lo, s.n), a'.keys, s);
    FirstOpen(b, d, s);
  }

  lemma FirstOpen(b: Board, d: Desk, s: Step)
    requires Shaped(b) && Shaped(d.b) && ThreeParts(s) && s.idx == 0 && d.stack == [s] && d.pop == 0 && d.fin == s.lo + s.n && d.jobs == map[]
    requires b.open.Keys == {s.lo} && BoardOk(d.b) && d.b.hi == s.lo + s.n && d.b.lo == s.lo
    requires OthersSame(b, d.b, s.lo, s.n)
    requires forall x | s.lo <= x < s.lo + s.n :: x in d.b.open <==> x in PiecesOfStep(s)
    requires forall x | x in PiecesOfStep(s) :: x in d.b.open && d.b.open[x] == PiecesOfStep(s)[x]
    ensures StackOpen(d) && JobsOpen(d)
  {
    hide BoardOk, PieceOf, PiecesOfStep;
    OpenInside(d.b);
    forall k: nat, j: nat | Waits(d, k, j)
      ensures PartAt(d.stack[k], j) in d.b.open && d.b.open[PartAt(d.stack[k], j)] == PieceOf(d.stack[k], j)
    {
      PiecesOfStepExact(s, j);
    }
    forall x | x in d.b.open && x < d.fin ensures exists k: nat, j: nat :: Waits(d, k, j) && PartAt(d.stack[k], j) == x {
      var j := PiecesOfStepOnly(s, x);
      assert Waits(d, 0, j) && PartAt(d.stack[0], j) == x;
    }
    forall x | x in d.b.open ensures x < d.fin {
      FitNonEmpty(d.b, x);
    }
  }

  lemma FirstReplaced(b: Board, a': Arrays, s: Step)
    requires Shaped(b) && s.MkqsStep? && s.lo in b.open && s.lo + s.n <= |b.val| == |a'.strs| && |a'.keys| == |b.val|
    requires b.lo <= s.lo && s.lo + s.n <= b.hi && forall p | 0 <= p < |b.val| :: !b.written[p]
    ensures Replaced(b, FirstDesk(b, a', s).b, a'.strs, a'.keys, s.lo, s.n, false)
  {
    hide TernaryPieces;
  }

  lemma FirstWork(q: Quest, a: Arrays, a': Arrays, t: seq<Str>, piece: Piece, s: Step) returns (b1: Board)
    requires q.lo + |q.whole| <= |a.strs| == |a.keys| == |a.out| && a.strs[q.lo..q.lo + |q.whole|] == q.whole
    requires Short(q.whole, q.limit) && |q.whole| <= q.size && Fit(q.whole, a.keys, q.lo, piece) && piece.n == |q.whole|
    requires ThreeParts(s) && s.idx == 0 && s.lo == q.lo && s.n == |q.whole| && s.depth == piece.depth
    requires Rank(q.limit, q.size, s.depth, s.n) <= q.rank
    requires Sorts(WholeBoard(q.lo, |q.whole|, a, piece), a, a', a'.strs, q.lo, |q.whole|, t)
    requires SplitFits(t, a'.keys, q.lo, s.depth, s.numLt, s.numEq, s.numGt, !s.eqRecurse)
    ensures Work(Desk(b1, [s], 0, q.lo + |q.whole|, map[]), q, a, a')
    ensures NoSame(Desk(b1, [s], 0, q.lo + |q.whole|, map[]))
  {
    hide Work, NoSame, Rank, Patch, TernaryPieces, DeskOk, Fit, Short, Sorts, Frame, Stored, OnQuest, SplitFits, BoardOk;
    var b := WholeBoard(q.lo, |q.whole|, a, piece);
    WholeOk(q.lo, |q.whole|, a, piece, q.whole);
    FirstDeskFits(b, a, a', t, s);
    b1 := FirstDesk(b, a', s).b;
    FirstMemory(q, a, a', t, piece, s);
    WorkOfFirst(q, a, a', s, b1);
  }

  lemma FirstDeskFits(b: Board, a: Arrays, a': Arrays, t: seq<Str>, s: Step)
    requires BoardOk(b) && Shaped(b) && Stored(b, a) && ThreeParts(s) && s.idx == 0 && b.lo == s.lo && b.hi == s.lo + s.n
    requires b.open.Keys == {s.lo} && b.open[s.lo].n == s.n && b.open[s.lo].depth == s.depth
    requires Sorts(b, a, a', a'.strs, s.lo, s.n, t) && forall p | 0 <= p < |b.val| :: !b.written[p]
    requires SplitFits(t, a'.keys, s.lo, s.depth, s.numLt, s.numEq, s.numGt, !s.eqRecurse)
    ensures s.lo + s.n <= |b.val| == |a'.strs| && DeskOk(FirstDesk(b, a', s))
  {
    hide BoardOk, SplitFits, Patch, TernaryPieces, DeskOk, Sorts, Moved, Stored, ThreeParts;
    SortsLengths(b, a, a', a'.strs, s.lo, s.n, t);
    ThreePartsStep(s);
    MovedBy(b, a, a', a'.strs, s.lo, s.n, t);
    FirstDeskOk(b, a', s);
  }

  lemma ThreePartsStep(s: Step)
    requires ThreeParts(s)
    ensures s.MkqsStep?
  {
  }

  lemma FirstMemory(q: Quest, a: Arrays, a': Arrays, t: seq<Str>, piece: Piece, s: Step)
    requires q.lo + |q.whole| <= |a.strs| == |a.keys| == |a.out| == |a'.strs| && a.strs[q.lo..q.lo + |q.whole|] == q.whole
    requires Short(q.whole, q.limit) && |q.whole| <= q.size && Fit(q.whole, a.keys, q.lo, piece) && piece.n == |q.whole|
    requires ThreeParts(s) && s.lo == q.lo && s.n == |q.whole|
    requires Sorts(WholeBoard(q.lo, |q.whole|, a, piece), a, a', a'.strs, q.lo, |q.whole|, t)
    ensures var b := FirstDesk(WholeBoard(q.lo, |q.whole|, a, piece), a', s).b;
            Shaped(b) && Stored(b, a') && OnQuest(b, q) && Frame(q, a, a')
  {
    hide BoardOk, Patch, TernaryPieces, DeskOk, Fit, Short, Sorts, Frame, Stored, Replaced;
    var b, n := WholeBoard(q.lo, |q.whole|, a, piece), |q.whole|;
    WholeOk(q.lo, n, a, piece, q.whole);
    SortsLengths(b, a, a', a'.strs, q.lo, n, t);
    KeysLength(b, a, a', a'.strs, q.lo, n, t);
    FirstReplaced(b, a', s);
    FrameSame(q, a);
    WorkMemory(b, FirstDesk(b, a', s).b, q, a, a, a', q.lo, n, false, t);
  }

  lemma WorkOfFirst(q: Quest, a: Arrays, a': Arrays, s: Step, b: Board)
    requires Rank(q.limit, q.size, s.depth, s.n) <= q.rank && Shaped(b) && Stored(b, a') && OnQuest(b, q) && Frame(q, a, a')
    requires var d := Desk(b, [s], 0, q.lo + |q.whole|, map[]); DeskOk(d)
    ensures var d := Desk(b, [s], 0, q.lo + |q.whole|, map[]); Work(d, q, a, a') && NoSame(d)
  {
    hide Rank, DeskOk, Stored, OnQuest, Frame, Shaped;
  }

  lemma FrameSame(q: Quest, a: Arrays)
    ensures Frame(q, a, a)
  {
  }
}
