/** Which pieces a sequential multikey quicksort job still has on its stack, and
    which it has given away (src/parallel/bingmann-parallel_mkqs.hpp,
    SequentialJob::sequential_mkqs). */
module Desks {
  import opened Pieces
  import opened Potential
  import opened Steps
  import opened Strings

  /** A child job on part of the shared cache. */
  datatype SeqJob = SeqJob(n: nat, depth: nat, dirty: bool)

  /** fin is cache_finished. */
  datatype Desk = Desk(b: Board, stack: seq<Step>, pop: nat, fin: nat, jobs: map<nat, SeqJob>)

  ghost predicate ThreeParts(s: Step) {
    s.MkqsStep? && s.numLt + s.numEq + s.numGt == s.n && s.numEq > 0 && s.idx <= 3
  }

  /** Where part j starts; part 3 is the end of the area. */
  function PartAt(s: Step, j: nat): (p: nat) {
    if !s.MkqsStep? then 0 else s.lo + if j == 0 then 0 else if j == 1 then s.numLt else if j == 2 then s.numLt + s.numEq else s.n
  }

  function PartLen(s: Step, j: nat): (n: nat) {
    if !s.MkqsStep? then 0 else if j == 0 then s.numLt else if j == 1 then s.numEq else s.numGt
  }

  function PieceOf(s: Step, j: nat): (p: Piece) {
    Piece(PartLen(s, j), if j == 1 then s.depth + 8 else s.depth, j == 1, s.MkqsStep? && j == 1 && !s.eqRecurse)
  }

  function JobOf(p: Piece): (j: SeqJob) {
    SeqJob(p.n, p.depth, p.dirty)
  }

  /** Each live level sorts the part that the level below has started last. */
  ghost predicate Chained(d: Desk) {
    && d.pop <= |d.stack| && (forall k | 0 <= k < |d.stack| :: ThreeParts(d.stack[k]))
    && forall k: nat | d.pop <= k && k + 1 < |d.stack| ::
         d.stack[k].idx > 0 && d.stack[k + 1].lo == PartAt(d.stack[k], d.stack[k].idx - 1)
         && d.stack[k + 1].n == PartLen(d.stack[k], d.stack[k].idx - 1)
  }

  /** Part j of live level k has not been started. */
  predicate Waits(d: Desk, k: nat, j: nat) {
    d.pop <= k < |d.stack| && d.stack[k].idx <= j < 3 && PartLen(d.stack[k], j) > 0
  }

  /** The open pieces below fin are the waiting parts of the live levels. */
  ghost predicate StackOpen(d: Desk) {
    && (forall k: nat, j: nat | Waits(d, k, j) ::
          PartAt(d.stack[k], j) in d.b.open && d.b.open[PartAt(d.stack[k], j)] == PieceOf(d.stack[k], j))
    && (forall at | at in d.b.open && at < d.fin :: exists k: nat, j: nat :: Waits(d, k, j) && PartAt(d.stack[k], j) == at)
  }

  /** The others are the child jobs. */
  ghost predicate JobsOpen(d: Desk) {
    && (forall at | at in d.jobs :: at in d.b.open && d.fin <= at && d.jobs[at] == JobOf(d.b.open[at]))
    && (forall at | at in d.b.open && d.fin <= at :: at in d.jobs)
  }

  /** Exactly the area from fin on was given away or written to the output. */
  ghost predicate GivenFrom(d: Desk)
    requires Shaped(d.b)
  {
    forall p | d.b.lo <= p < d.b.hi :: if p < d.fin then !d.b.written[p] else d.b.written[p] || d.b.head[p] in d.jobs
  }

  /** fin is the end of the lowest live level. */
  ghost predicate FinIsEnd(d: Desk) {
    d.b.lo <= d.fin <= d.b.hi && (d.pop < |d.stack| ==> d.fin == PartAt(d.stack[d.pop], 3) && d.b.lo <= d.stack[d.pop].lo)
  }

  ghost predicate DeskOk(d: Desk) {
    BoardOk(d.b) && Chained(d) && StackOpen(d) && JobsOpen(d) && GivenFrom(d) && FinIsEnd(d)
  }

  lemma PartsTile(s: Step, i: nat, j: nat)
    requires ThreeParts(s) && i <= j <= 3
    ensures s.lo <= PartAt(s, i) <= PartAt(s, j) <= PartAt(s, 3) == s.lo + s.n
    ensures i < j ==> PartAt(s, i) + PartLen(s, i) <= PartAt(s, j)
    ensures i < 3 ==> PartAt(s, i) + PartLen(s, i) == PartAt(s, i + 1)
  {
  }

  /** Levels lie inside each other, to the left of what still waits below. */
  lemma {:induction false} LevelsInside(d: Desk, k: nat, k': nat)
    requires Chained(d) && d.pop <= k < k' < |d.stack|
    ensures d.stack[k].lo <= d.stack[k'].lo && PartAt(d.stack[k'], 3) <= PartAt(d.stack[k], d.stack[k].idx)
    decreases k'
  {
    hide PartAt, PartLen;
    var s := d.stack[k' - 1];
    assert d.stack[(k' - 1) + 1].lo == PartAt(s, s.idx - 1);
    PartsTile(s, s.idx - 1, s.idx);
    PartsTile(d.stack[k'], 0, 3);
    if k < k' - 1 {
      LevelsInside(d, k, k' - 1);
      PartsTile(s, s.idx, 3);
    }
  }

  /** The waiting part of the top level that comes next is the leftmost one. */
  lemma NextIsFirst(d: Desk, k: nat, j: nat)
    requires DeskOk(d) && d.pop < |d.stack| && Waits(d, k, j)
    ensures var s := d.stack[|d.stack| - 1];
            && PartAt(s, s.idx) <= PartAt(d.stack[k], j) < d.fin
            && (s.idx < 3 && !(k == |d.stack| - 1 && j == s.idx) ==> PartAt(s, s.idx) + PartLen(s, s.idx) <= PartAt(d.stack[k], j))
  {
    hide PartAt, PartLen, BoardOk, StackOpen, JobsOpen, GivenFrom;
    var top := |d.stack| - 1;
    var s := d.stack[top];
    assert PartLen(d.stack[k], j) > 0;
    PartsTile(d.stack[k], j, 3);
    PartsTile(d.stack[k], j, j);
    PartsTile(d.stack[k], d.stack[k].idx, j);
    PartsTile(s, s.idx, 3);
    if k < top {
      LevelsInside(d, k, top);
      if s.idx < 3 { PartsTile(s, s.idx, s.idx); PartsTile(s, s.idx + 1, 3); }
    }
    if d.pop < k {
      LevelsInside(d, d.pop, k);
      PartsTile(d.stack[d.pop], d.stack[d.pop].idx, 3);
    }
  }

  /** The next part of the top level, if it is not empty, is an open piece. */
  lemma NextPiece(d: Desk)
    requires DeskOk(d) && d.pop < |d.stack| && d.stack[|d.stack| - 1].idx < 3
    ensures var s := d.stack[|d.stack| - 1]; var at, n := PartAt(s, s.idx), PartLen(s, s.idx);
            && d.b.lo <= at && at + n <= d.fin <= d.b.hi
            && (n > 0 ==> at in d.b.open && d.b.open[at] == PieceOf(s, s.idx) && PieceOk(d.b, at, PieceOf(s, s.idx)))
  {
    hide PartAt, PartLen, JobsOpen, GivenFrom, Fit, PieceOf;
    var top := |d.stack| - 1;
    var s := d.stack[top];
    PartsTile(s, 0, s.idx);
    PartsTile(s, s.idx + 1, 3);
    PartsTile(s, s.idx, s.idx + 1);
    if d.pop < top {
      LevelsInside(d, d.pop, top);
      PartsTile(d.stack[d.pop], d.stack[d.pop].idx, 3);
    }
    if PartLen(s, s.idx) > 0 {
      assert Waits(d, top, s.idx);
    }
  }

  /** The same desk with the next part started and board b'. */
  function Started(d: Desk, b': Board): (d': Desk)
    requires d.stack != []
  {
    d.(b := b', stack := Bumped(d.stack))
  }

  /** Outside the next part, boards b and b' agree on pieces and owners. */
  ghost predicate OthersSame(b: Board, b': Board, at: nat, n: nat)
    requires Shaped(b) && Shaped(b')
  {
    && b'.lo == b.lo && b'.hi == b.hi && |b'.val| == |b.val|
    && (forall p | b.lo <= p < b.hi && !(at <= p < at + n) :: b'.head[p] == b.head[p] && b'.written[p] == b.written[p])
    && (forall x | x < at || at + n <= x :: x in b'.open <==> x in b.open)
    && (forall x | x in b'.open && (x < at || at + n <= x) :: b'.open[x] == b.open[x])
  }

  /** Starting a part changes nothing but idx of the top step. */
  lemma BumpedParts(d: Desk, b': Board)
    requires d.stack != []
    ensures var s, s' := d.stack, Started(d, b').stack;
            && |s'| == |s| && s'[|s| - 1].idx == s[|s| - 1].idx + 1 && (forall k | 0 <= k < |s| - 1 :: s'[k] == s[k])
            && forall k | 0 <= k < |s| :: SamePieces(s[k], s'[k])
  {
  }

  ghost predicate SamePieces(s: Step, s': Step) {
    && s'.lo == s.lo && s'.n == s.n && (s.idx <= s'.idx <= 3 ==> (ThreeParts(s) ==> ThreeParts(s')))
    && forall j: nat :: PartAt(s', j) == PartAt(s, j) && PartLen(s', j) == PartLen(s, j) && PieceOf(s', j) == PieceOf(s, j)
  }

  lemma BumpedChain(d: Desk, b': Board)
    requires Chained(d) && d.pop < |d.stack| && d.stack[|d.stack| - 1].idx < 3
    ensures Chained(Started(d, b'))
    ensures forall k: nat, j: nat :: Waits(Started(d, b'), k, j) <==>
              Waits(d, k, j) && !(k == |d.stack| - 1 && j == d.stack[k].idx)
    ensures forall k: nat, j: nat | k < |d.stack| ::
              PartAt(Started(d, b').stack[k], j) == PartAt(d.stack[k], j) && PieceOf(Started(d, b').stack[k], j) == PieceOf(d.stack[k], j)
  {
    hide PartAt, PartLen, PieceOf, ThreeParts;
    BumpedParts(d, b');
  }

  /** Pieces to the right of the next part are what they were. */
  lemma JobsKept(d: Desk, b': Board, at: nat, n: nat)
    requires BoardOk(d.b) && Shaped(b') && JobsOpen(d) && GivenFrom(d) && at + n <= d.fin
    requires OthersSame(d.b, b', at, n) && forall p | at <= p < at + n :: p < |b'.written| ==> !b'.written[p]
    ensures JobsOpen(d.(b := b')) && GivenFrom(d.(b := b'))
  {
    hide PieceOk, Ordered, Headed;
  }

  /** A part that waits to the right of the next one. */
  lemma StillWaits(d: Desk, b': Board, k: nat, j: nat)
    requires DeskOk(d) && d.pop < |d.stack| && d.stack[|d.stack| - 1].idx < 3 && Shaped(b')
    requires var s := d.stack[|d.stack| - 1]; OthersSame(d.b, b', PartAt(s, s.idx), PartLen(s, s.idx))
    requires Waits(d, k, j) && !(k == |d.stack| - 1 && j == d.stack[k].idx)
    ensures var x := PartAt(d.stack[k], j); x in b'.open && b'.open[x] == PieceOf(d.stack[k], j)
  {
    hide PartAt, PartLen, BoardOk, PieceOf, JobsOpen, GivenFrom, Chained;
    NextIsFirst(d, k, j);
  }

  /** An open piece below fin that is not inside the next part waits. */
  lemma WaitsStill(d: Desk, b': Board, x: nat) returns (k: nat, j: nat)
    requires DeskOk(d) && d.pop < |d.stack| && d.stack[|d.stack| - 1].idx < 3 && Shaped(b')
    requires var s := d.stack[|d.stack| - 1];
             && OthersSame(d.b, b', PartAt(s, s.idx), PartLen(s, s.idx))
             && !(PartAt(s, s.idx) <= x < PartAt(s, s.idx) + PartLen(s, s.idx))
    requires x in b'.open && x < d.fin
    ensures Waits(d, k, j) && PartAt(d.stack[k], j) == x && !(k == |d.stack| - 1 && j == d.stack[k].idx)
  {
    hide PartAt, PartLen, BoardOk, PieceOf, JobsOpen, GivenFrom, Chained;
    assert x in d.b.open;
    k, j :| Waits(d, k, j) && PartAt(d.stack[k], j) == x;
    NextIsFirst(d, k, j);
  }

  /** A part was started and is finished in the cache. */
  lemma StartedSettled(d: Desk, b': Board)
    requires DeskOk(d) && d.pop < |d.stack| && d.stack[|d.stack| - 1].idx < 3 && BoardOk(b')
    requires var s := d.stack[|d.stack| - 1]; var at, n := PartAt(s, s.idx), PartLen(s, s.idx);
             && OthersSame(d.b, b', at, n) && (forall p | at <= p < at + n :: p < |b'.written| ==> !b'.written[p])
             && forall x | at <= x < at + n :: x !in b'.open
    ensures DeskOk(Started(d, b'))
  {
    hide PartAt, PartLen, BoardOk, PieceOf, PieceOk, JobsOpen, GivenFrom, Chained;
    NextPiece(d);
    BumpedChain(d, b');
    BoardShape(d.b);
    BoardShape(b');
    var d' := Started(d, b');
    JobsKept(d, b', PartAt(d.stack[|d.stack| - 1], d.stack[|d.stack| - 1].idx), PartLen(d.stack[|d.stack| - 1], d.stack[|d.stack| - 1].idx));
    StartedJobs(d, b');
    forall k: nat, j: nat | Waits(d', k, j)
      ensures PartAt(d'.stack[k], j) in b'.open && b'.open[PartAt(d'.stack[k], j)] == PieceOf(d'.stack[k], j)
    {
      WaitsInRange(d, k, j);
      StillWaits(d, b', k, j);
    }
    forall x | x in b'.open && x < d.fin ensures exists k: nat, j: nat :: Waits(d', k, j) && PartAt(d'.stack[k], j) == x {
      var k, j := WaitsStill(d, b', x);
      WaitsInRange(d, k, j);
      assert Waits(d', k, j) && PartAt(d'.stack[k], j) == x;
    }
  }

  lemma WaitsInRange(d: Desk, k: nat, j: nat)
    requires Waits(d, k, j)
    ensures k < |d.stack| && j < 3
  {
  }

  /** Neither the jobs nor fin depend on how far the top level is. */
  lemma StartedJobs(d: Desk, b': Board)
    requires d.pop < |d.stack| && FinIsEnd(d) && Shaped(d.b) && Shaped(b') && b'.lo == d.b.lo && b'.hi == d.b.hi
    requires JobsOpen(d.(b := b')) && GivenFrom(d.(b := b'))
    ensures JobsOpen(Started(d, b')) && GivenFrom(Started(d, b')) && FinIsEnd(Started(d, b'))
  {
  }

  lemma BoardShape(b: Board)
    requires BoardOk(b)
    ensures Shaped(b)
  {
  }

  ghost function PiecesOfStep(s: Step): (news: map<nat, Piece>) {
    if !s.MkqsStep? then map[] else TernaryPieces(s.lo, s.depth, s.numLt, s.numEq, s.numGt, !s.eqRecurse)
  }

  lemma PiecesOfStepExact(s: Step, j: nat)
    requires ThreeParts(s) && s.idx == 0 && j < 3 && PartLen(s, j) > 0
    ensures PartAt(s, j) in PiecesOfStep(s) && PiecesOfStep(s)[PartAt(s, j)] == PieceOf(s, j)
  {
  }

  lemma PiecesOfStepOnly(s: Step, x: nat) returns (j: nat)
    requires ThreeParts(s) && s.idx == 0 && x in PiecesOfStep(s)
    ensures j < 3 && PartLen(s, j) > 0 && PartAt(s, j) == x
  {
    j := if x == s.lo && s.numLt > 0 then 0 else if x == s.lo + s.numLt then 1 else 2;
  }

  /** The desk after the next part got step s of its own. */
  function Pushed(d: Desk, b': Board, s: Step): (d': Desk)
    requires d.stack != []
  {
    d.(b := b', stack := Bumped(d.stack) + [s])
  }

  /** The next part was replaced by the parts of the new step child. */
  ghost predicate SplitInto(d: Desk, b': Board, child: Step) {
    && d.pop < |d.stack| && d.stack[|d.stack| - 1].idx < 3 && Shaped(d.b) && Shaped(b')
    && ThreeParts(child) && child.idx == 0
    && var s := d.stack[|d.stack| - 1]; var at, n := PartAt(s, s.idx), PartLen(s, s.idx);
       && child.lo == at && child.n == n
       && OthersSame(d.b, b', at, n) && (forall p | at <= p < at + n :: p < |b'.written| ==> !b'.written[p])
       && (forall x | at <= x < at + n :: x in b'.open <==> x in PiecesOfStep(child))
       && (forall x | x in PiecesOfStep(child) :: x in b'.open && b'.open[x] == PiecesOfStep(child)[x])
  }

  lemma PushedForward(d: Desk, b': Board, child: Step, k: nat, j: nat)
    requires DeskOk(d) && SplitInto(d, b', child) && Waits(Pushed(d, b', child), k, j)
    ensures k <= |d.stack|
    ensures var s := Pushed(d, b', child).stack[k]; var x := PartAt(s, j); x in b'.open && b'.open[x] == PieceOf(s, j)
  {
    hide BoardOk, JobsOpen, GivenFrom, Chained, FinIsEnd, StackOpen, PiecesOfStep;
    if k == |d.stack| {
      PiecesOfStepExact(child, j);
    } else {
      DeskChained(d);
      BumpedChain(d, b');
      assert Waits(Started(d, b'), k, j);
      StillWaits(d, b', k, j);
    }
  }

  lemma DeskChained(d: Desk)
    requires DeskOk(d)
    ensures Chained(d)
  {
  }

  lemma PushedBackward(d: Desk, b': Board, child: Step, x: nat) returns (k: nat, j: nat)
    requires DeskOk(d) && SplitInto(d, b', child) && x in b'.open && x < d.fin
    ensures Waits(Pushed(d, b', child), k, j) && PartAt(Pushed(d, b', child).stack[k], j) == x
  {
    hide BoardOk, JobsOpen, GivenFrom, Chained, FinIsEnd, StackOpen, PiecesOfStep, PartAt, PartLen, ThreeParts;
    if child.lo <= x < child.lo + child.n {
      j := PiecesOfStepOnly(child, x);
      k := |d.stack|;
    } else {
      k, j := WaitsStill(d, b', x);
      DeskChained(d);
      BumpedChain(d, b');
      assert Waits(Started(d, b'), k, j);
    }
  }

  /** A part was started with a step of its own. */
  lemma StartedPushed(d: Desk, b': Board, child: Step)
    requires DeskOk(d) && BoardOk(b') && SplitInto(d, b', child)
    ensures DeskOk(Pushed(d, b', child))
  {
    hide PartAt, PartLen, BoardOk, PieceOf, JobsOpen, GivenFrom, PiecesOfStep, ThreeParts, Chained, FinIsEnd;
    NextPiece(d);
    BumpedChain(d, b');
    var s := d.stack[|d.stack| - 1];
    var d' := Pushed(d, b', child);
    JobsKept(d, b', PartAt(s, s.idx), PartLen(s, s.idx));
    StartedJobs(d, b');
    PushedChain(d, b', child);
    PushedRest(d, b', child);
    forall k: nat, j: nat | Waits(d', k, j)
      ensures PartAt(d'.stack[k], j) in b'.open && b'.open[PartAt(d'.stack[k], j)] == PieceOf(d'.stack[k], j)
    {
      PushedForward(d, b', child, k, j);
    }
    forall x | x in b'.open && x < d.fin ensures exists k: nat, j: nat :: Waits(d', k, j) && PartAt(d'.stack[k], j) == x {
      var k, j := PushedBackward(d, b', child, x);
    }
  }

  lemma PushedChain(d: Desk, b': Board, child: Step)
    requires d.pop < |d.stack| && Chained(Started(d, b')) && d.stack[|d.stack| - 1].idx < 3 && ThreeParts(child) && child.idx == 0
    requires var s := d.stack[|d.stack| - 1]; child.lo == PartAt(s, s.idx) && child.n == PartLen(s, s.idx)
    ensures Chained(Pushed(d, b', child))
  {
  }

  lemma PushedRest(d: Desk, b': Board, child: Step)
    requires d.pop < |d.stack| && Shaped(b')
    requires JobsOpen(Started(d, b')) && GivenFrom(Started(d, b')) && FinIsEnd(Started(d, b'))
    ensures JobsOpen(Pushed(d, b', child)) && GivenFrom(Pushed(d, b', child)) && FinIsEnd(Pushed(d, b', child))
  {
  }

  /** The top level is finished and leaves the stack. */
  lemma PopOk(d: Desk)
    requires DeskOk(d) && d.pop < |d.stack| && d.stack[|d.stack| - 1].idx == 3
    ensures DeskOk(d.(stack := d.stack[..|d.stack| - 1]))
  {
    hide BoardOk, PartAt, PartLen, PieceOf, JobsOpen, GivenFrom, ThreeParts;
    var d' := d.(stack := d.stack[..|d.stack| - 1]);
    PopRest(d);
    forall k: nat, j: nat | Waits(d', k, j) ensures Waits(d, k, j) {
    }
    forall x | x in d.b.open && x < d.fin ensures exists k: nat, j: nat :: Waits(d', k, j) && PartAt(d'.stack[k], j) == x {
      var k: nat, j: nat :| Waits(d, k, j) && PartAt(d.stack[k], j) == x;
      assert Waits(d', k, j);
    }
  }

  lemma PopRest(d: Desk)
    requires DeskOk(d) && d.pop < |d.stack|
    ensures var d' := d.(stack := d.stack[..|d.stack| - 1]);
            Chained(d') && JobsOpen(d') && GivenFrom(d') && FinIsEnd(d')
  {
    hide BoardOk, StackOpen;
    BoardShape(d.b);
  }

  // ------------------------------------------------------ giving work away

  ghost function JobOfPart(s: Step, j: nat): (jobs: map<nat, SeqJob>) {
    if s.idx <= j && PartLen(s, j) > 0 then map[PartAt(s, j) := JobOf(PieceOf(s, j))] else map[]
  }

  ghost function JobsOfStep(s: Step): (jobs: map<nat, SeqJob>) {
    JobOfPart(s, 0) + JobOfPart(s, 1) + JobOfPart(s, 2)
  }

  lemma JobsOfStepExact(s: Step, j: nat)
    requires ThreeParts(s) && s.idx <= j < 3 && PartLen(s, j) > 0
    ensures PartAt(s, j) in JobsOfStep(s) && JobsOfStep(s)[PartAt(s, j)] == JobOf(PieceOf(s, j))
  {
  }

  lemma JobsOfStepOnly(s: Step, x: nat) returns (j: nat)
    requires ThreeParts(s) && x in JobsOfStep(s)
    ensures s.idx <= j < 3 && PartLen(s, j) > 0 && PartAt(s, j) == x
  {
    j := if x in JobOfPart(s, 0) then 0 else if x in JobOfPart(s, 1) then 1 else 2;
  }

  /** The waiting parts of the lowest live level become jobs, and cache_finished
      moves to their start. */
  ghost function GivenAway(d: Desk): (d': Desk)
    requires d.pop < |d.stack|
  {
    var s := d.stack[d.pop];
    d.(pop := d.pop + 1, fin := PartAt(s, s.idx), jobs := d.jobs + JobsOfStep(s))
  }

  lemma FreeFin(d: Desk)
    requires DeskOk(d) && d.pop < |d.stack|
    ensures var s := d.stack[d.pop];
            && ThreeParts(s) && d.b.lo <= PartAt(s, s.idx) <= d.fin == PartAt(s, 3)
            && FinIsEnd(GivenAway(d)) && Chained(GivenAway(d))
  {
    hide BoardOk, JobsOpen, GivenFrom, StackOpen;
    BoardShape(d.b);
    var s := d.stack[d.pop];
    PartsTile(s, s.idx, 3);
    PartsTile(s, 0, s.idx);
    if d.pop + 1 < |d.stack| {
      PartsTile(s, s.idx - 1, s.idx);
    }
  }

  /** A waiting part either was given away or lies below the new fin. */
  lemma FreeSides(d: Desk, k: nat, j: nat)
    requires DeskOk(d) && d.pop < |d.stack| && Waits(d, k, j)
    ensures var s := d.stack[d.pop];
            if k == d.pop then PartAt(s, s.idx) <= PartAt(s, j) < d.fin && s.idx <= j
            else PartAt(d.stack[k], j) < PartAt(s, s.idx) && Waits(GivenAway(d), k, j)
  {
    hide BoardOk, JobsOpen, GivenFrom, StackOpen, PartAt, PartLen, JobsOfStep;
    FreeFin(d);
    var s := d.stack[d.pop];
    if k == d.pop {
      PartsTile(s, s.idx, j);
      PartsTile(s, j, 3);
    } else {
      LevelsInside(d, d.pop, k);
      PartsTile(d.stack[k], j, 3);
    }
  }

  lemma FreeStack(d: Desk)
    requires DeskOk(d) && d.pop < |d.stack|
    ensures StackOpen(GivenAway(d))
  {
    hide BoardOk, JobsOpen, GivenFrom, PartAt, PartLen, JobsOfStep, PieceOf;
    FreeFin(d);
    var d' := GivenAway(d);
    forall k: nat, j: nat | Waits(d', k, j) ensures Waits(d, k, j) {
    }
    forall x | x in d.b.open && x < d'.fin ensures exists k: nat, j: nat :: Waits(d', k, j) && PartAt(d'.stack[k], j) == x {
      var k: nat, j: nat :| Waits(d, k, j) && PartAt(d.stack[k], j) == x;
      FreeSides(d, k, j);
      assert Waits(d', k, j);
    }
  }

  lemma FreeJobs(d: Desk)
    requires DeskOk(d) && d.pop < |d.stack|
    ensures JobsOpen(GivenAway(d))
  {
    hide BoardOk, GivenFrom, PartAt, PartLen, JobsOfStep, PieceOf, JobOf, Chained;
    FreeFin(d);
    var s, d' := d.stack[d.pop], GivenAway(d);
    forall x | x in d'.jobs ensures x in d.b.open && d'.fin <= x && d'.jobs[x] == JobOf(d.b.open[x]) {
      if x in JobsOfStep(s) {
        var j := JobsOfStepOnly(s, x);
        assert Waits(d, d.pop, j);
        JobsOfStepExact(s, j);
        FreeSides(d, d.pop, j);
      }
    }
    forall x | x in d.b.open && d'.fin <= x ensures x in d'.jobs {
      if x < d.fin {
        var k: nat, j: nat :| Waits(d, k, j) && PartAt(d.stack[k], j) == x;
        FreeSides(d, k, j);
        JobsOfStepExact(s, j);
      }
    }
  }

  /** Every position between the new fin and the old one belongs to a new job. */
  lemma FreeGiven(d: Desk)
    requires DeskOk(d) && d.pop < |d.stack|
    ensures GivenFrom(GivenAway(d))
  {
    hide BoardOk, PartAt, PartLen, JobsOfStep, PieceOf, JobOf, Chained, JobsOpen, ThreeParts;
    BoardShape(d.b);
    FreeFin(d);
    var s, d' := d.stack[d.pop], GivenAway(d);
    forall p | d.b.lo <= p < d.b.hi ensures if p < d'.fin then !d.b.written[p] else d.b.written[p] || d.b.head[p] in d'.jobs {
      if d'.fin <= p < d.fin {
        var j := PartOfPosition(s, p);
        assert Waits(d, d.pop, j);
        PieceCovers(d.b, PartAt(s, j), p);
        JobsOfStepExact(s, j);
      }
    }
  }

  lemma PartOfPosition(s: Step, p: nat) returns (j: nat)
    requires ThreeParts(s) && PartAt(s, s.idx) <= p < PartAt(s, 3)
    ensures s.idx <= j < 3 && PartAt(s, j) <= p < PartAt(s, j) + PartLen(s, j)
    ensures PieceOf(s, j).n == PartLen(s, j)
  {
    j := if p < PartAt(s, 1) then 0 else if p < PartAt(s, 2) then 1 else 2;
  }

  lemma PieceCovers(b: Board, at: nat, p: nat)
    requires BoardOk(b) && at in b.open && at <= p < at + b.open[at].n
    ensures b.lo <= p < b.hi && b.head[p] == at
  {
    assert PieceOk(b, at, b.open[at]);
  }

  lemma FreeOk(d: Desk)
    requires DeskOk(d) && d.pop < |d.stack|
    ensures DeskOk(GivenAway(d))
  {
    hide BoardOk, JobsOpen, GivenFrom, StackOpen, Chained, FinIsEnd;
    FreeFin(d);
    FreeStack(d);
    FreeJobs(d);
    FreeGiven(d);
  }

  /** A child job has written its piece. */
  lemma ChildOk(d: Desk, at: nat, val: seq<Str>, keys: seq<nat>)
    requires DeskOk(d) && at in d.jobs && at in d.b.open && BoardOk(Settle(d.b, at, val, keys, true)) && |val| == |d.b.val|
    ensures DeskOk(d.(b := Settle(d.b, at, val, keys, true), jobs := d.jobs - {at}))
  {
    hide BoardOk, PartAt, PartLen, PieceOf, ThreeParts, GivenFrom;
    BoardShape(d.b);
    BoardShape(Settle(d.b, at, val, keys, true));
    var d' := d.(b := Settle(d.b, at, val, keys, true), jobs := d.jobs - {at});
    FitNonEmpty(d.b, at);
    forall k: nat, j: nat | Waits(d', k, j) ensures Waits(d, k, j) && PartAt(d.stack[k], j) < d.fin {
      assert Waits(d, k, j);
      NextIsFirst(d, k, j);
    }
    forall x | x in d'.b.open && x < d'.fin ensures exists k: nat, j: nat :: Waits(d', k, j) && PartAt(d'.stack[k], j) == x {
      var k: nat, j: nat :| Waits(d, k, j) && PartAt(d.stack[k], j) == x;
      assert Waits(d', k, j);
    }
    ChildGiven(d, at, val, keys);
  }

  lemma ChildGiven(d: Desk, at: nat, val: seq<Str>, keys: seq<nat>)
    requires BoardOk(d.b) && GivenFrom(d) && JobsOpen(d) && at in d.jobs && at in d.b.open && |val| == |d.b.val|
    requires Shaped(Settle(d.b, at, val, keys, true))
    ensures GivenFrom(d.(b := Settle(d.b, at, val, keys, true), jobs := d.jobs - {at}))
  {
    hide Ordered, Headed, Fit;
    forall p | d.b.lo <= p < d.b.hi && d.b.head[p] == at ensures at <= p < at + d.b.open[at].n {
      assert PieceOk(d.b, at, d.b.open[at]);
    }
  }
}
