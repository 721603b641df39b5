/** The sequential multikey quicksort job of src/parallel/bingmann-parallel_mkqs.hpp:
    an explicit stack whose lowest level may be turned into independent jobs before
    every step, on a string cache that all these jobs share. */
module Shedding {
  import opened CacheSort
  import opened Cells
  import opened CleanCaches
  import opened Desks
  import opened Jobs
  import opened Partition
  import opened Pieces
  import opened Potential
  import opened SharedCache
  import opened StableSort
  import opened Steps
  import opened Strings
  import opened Wrappers

  /** The schedule: what has_idle() answers to the job for (lo, n, depth) when it asks for
      the i-th time, and which of its child jobs, by the start of their area, other
      threads have run by then. */
  datatype Schedule = Schedule(hasIdle: (nat, nat, nat, nat) -> bool, others: (nat, nat, nat, nat) -> seq<nat>)

  /** How many of the first i answers to a job were yes. */
  ghost function Idles(schedule: Schedule, lo: nat, n: nat, depth: nat, i: nat): (c: nat) {
    if i == 0 then 0 else Idles(schedule, lo, n, depth, i - 1) + if schedule.hasIdle(lo, n, depth, i - 1) then 1 else 0
  }

  /** The jobs that are left when these have run. */
  function Without(jobs: map<nat, SeqJob>, ran: seq<nat>): (r: map<nat, SeqJob>) {
    map at | at in jobs && at !in ran :: jobs[at]
  }

  lemma WithoutOne(jobs: map<nat, SeqJob>, ran: seq<nat>, i: nat)
    requires i < |ran|
    ensures Without(jobs, ran[..i + 1]) == Without(jobs, ran[..i]) - {ran[i]}
    ensures ran[i] !in Without(jobs, ran[..i]) ==> Without(jobs, ran[..i + 1]) == Without(jobs, ran[..i])
  {
    assert ran[..i + 1] == ran[..i] + [ran[i]];
  }

  lemma NoneLeft(jobs: map<nat, SeqJob>, ran: seq<nat>)
    ensures jobs == map[] ==> Without(jobs, ran) == map[]
  {
  }

  lemma WithoutNone(jobs: map<nat, SeqJob>)
    ensures Without(jobs, []) == jobs
  {
  }

  /** The jobs after the level of this step was given away; equal texts need none. */
  ghost function GiveFront(jobs: map<nat, SeqJob>, s: Step): (r: map<nat, SeqJob>)
  {
    if s.MkqsStep? && s.idx <= 1 && !s.eqRecurse then (jobs + JobsOfStep(s)) - {PartAt(s, 1)} else jobs + JobsOfStep(s)
  }

  class SequentialJob {
    const out: array<Str>
    const strs: array<Str>
    const keys: array<nat>
    const lo: nat
    const n: nat
    const depth: nat
    const dirty: bool
    const schedule: Schedule

    var stack: seq<Step>
    var popFront: nat
    var cacheFinished: nat
    /** Child jobs that have not run yet, by the start of their area. */
    var jobs: map<nat, SeqJob>
    /** How often has_idle() was asked. */
    var asked: nat

    /** How many parts this job has started itself. */
    ghost var started: nat
    ghost const quest: Quest
    ghost const start: Arrays
    ghost var board: Board

    ghost function Now(): (a: Arrays)
      reads out, strs, keys
    {
      Arrays(out[..], strs[..], keys[..])
    }

    ghost function State(): (d: Desk)
      reads this
    {
      Desk(board, stack, popFront, cacheFinished, jobs)
    }

    ghost predicate OnArea() {
      && out != strs && out.Length == strs.Length == keys.Length
      && quest.lo == lo && |quest.whole| == n && lo + n <= out.Length
      && Short(quest.whole, quest.limit) && n <= quest.size && SharePrefix(quest.whole, depth)
      && Rank(quest.limit, quest.size, depth, n) == quest.rank
    }

    ghost predicate Valid()
      reads this, out, strs, keys
    {
      OnArea() && popFront <= |stack| && Work(State(), quest, start, Now()) && NoSame(State())
    }

    /** The area of the output holds its strings sorted, and nothing else changed. */
    ghost predicate Complete()
      reads out, strs, keys
    {
      && lo + n <= out.Length && Sorted(out[lo..lo + n]) && multiset(out[lo..lo + n]) == multiset(quest.whole)
      && Frame(quest, start, Now())
    }

    constructor (out: array<Str>, strs: array<Str>, keys: array<nat>, lo: nat, n: nat, depth: nat, dirty: bool, schedule: Schedule,
                 ghost s: seq<Str>, ghost limit: nat, ghost size: nat)
      requires out != strs && out.Length == strs.Length == keys.Length && |s| == n && Holds(strs, lo, s)
      requires Short(s, limit) && n <= size && SharePrefix(s, depth)
      ensures this.out == out && this.strs == strs && this.keys == keys && this.lo == lo && this.n == n
      ensures this.depth == depth && this.dirty == dirty && quest == Quest(lo, s, limit, size, Rank(limit, size, depth, n))
      ensures OnArea() && start == old(Arrays(out[..], strs[..], keys[..])) && unchanged(out, strs, keys)
      ensures stack == [] && popFront == 0 && cacheFinished == lo + n && jobs == map[] && asked == started == 0
    {
      this.out, this.strs, this.keys := out, strs, keys;
      this.lo, this.n, this.depth, this.dirty, this.schedule := lo, n, depth, dirty, schedule;
      asked, started := 0, 0;
      stack, popFront, cacheFinished, jobs := [], 0, lo + n, map[];
      quest := Quest(lo, s, limit, size, Rank(limit, size, depth, n));
      start := Arrays(out[..], strs[..], keys[..]);
      board := Board(0, 0, [], [], map[], [], []);
    }

    ghost function Potential(): (p: nat)
      reads this
    {
      if forall s | s in stack :: ValidStep(s) then StackPotential(stack, popFront, quest.limit, quest.size, 4) else 0
    }

    // ------------------------------------------------------- one step

    /** A part that is finished without a step of its own. */
    method SortPart(s: Step)
      requires Valid() && AtNext(State()) && s == stack[|stack| - 1]
      requires PartLen(s, s.idx) == 0 || PieceOf(s, s.idx).same || PartLen(s, s.idx) < G_INSSORT_THRESHOLD
      modifies this`stack, this`board, strs, keys
      ensures Valid() && Potential() < old(Potential()) && |stack| == old(|stack|)
    {
      hide Work, SharePrefix, Sorts, StackPotential, Rank, PartAt, KeysIn;
      ghost var d, a, before := State(), Now(), stack;
      LowerByStart(d, quest, start, a);
      if PartLen(s, s.idx) == 0 {
        EmptyWork(d, quest, start, a);
      } else if PieceOf(s, s.idx).same {
        SameWork(d, quest, start, a);
        board := SettledBoard(d, a);
      } else {
        var at, len := PartAt(s, s.idx), PartLen(s, s.idx);
        NextPart(d, quest, start, a, strs, keys);
        ghost var part := board.val[at..at + len];
        ghost var t := SortCache(strs, keys, at, len, PieceOf(s, s.idx).depth, s.idx == 1, part);
        SortsCache(d, quest, start, a, Now(), at, len, t);
        SettledWork(d, quest, start, a, Now(), t);
        board := SettledBoard(d, Now());
      }
      stack := Bumped(stack);
    }

    /** A large part gets a step of its own. */
    method PushPart(s: Step)
      requires Valid() && AtNext(State()) && s == stack[|stack| - 1]
      requires !PieceOf(s, s.idx).same && G_INSSORT_THRESHOLD <= PartLen(s, s.idx)
      modifies this`stack, this`board, strs, keys
      ensures Valid() && Potential() < old(Potential()) && |stack| > old(|stack|)
    {
      hide Work, SharePrefix, Sorts, StackPotential, Rank, PartAt, KeysIn, SplitFits, StepOfNext;
      ghost var d, a, before := State(), Now(), stack;
      var at, len := PartAt(s, s.idx), PartLen(s, s.idx);
      NextPart(d, quest, start, a, strs, keys);
      ghost var part := board.val[at..at + len];
      var child;
      ghost var t;
      child, t := MakeStep(strs, keys, at, len, PieceOf(s, s.idx).depth, s.idx == 1, part);
      SortsCache(d, quest, start, a, Now(), at, len, t);
      StepOfNextIs(d, child);
      PushedWork(d, quest, start, a, Now(), t, child);
      LowerByPush(d, quest, start, a, child);
      board := SplitBoard(d, Now(), child);
      stack := Bumped(stack) + [child];
    }

    // ------------------------------------------------------- work sharing

    /** The parts of the lowest live level that have not been started become jobs;
        equal texts are written out at once. */
    method FreeFront()
      requires Valid() && popFront < |stack|
      modifies this`popFront, this`cacheFinished, this`jobs, this`board, out
      ensures Valid() && popFront == old(popFront) + 1 && cacheFinished <= old(cacheFinished)
      ensures var st := stack[old(popFront)];
              && cacheFinished == (if st.idx < 3 then PartAt(st, st.idx) else old(cacheFinished))
              && jobs == GiveFront(old(jobs), st)
      ensures Potential() <= old(Potential())
    {
      hide Work, PartAt, StackPotential, Rank, JobsOfStep;
      ghost var d, a := State(), Now();
      var st := stack[popFront];
      var at0, at1, at2 := PartAt(st, 0), PartAt(st, 1), PartAt(st, 2);
      LowerByFree(d, quest, start, a);
      FreeWork(d, quest, start, a);
      FreedFacts(d, quest, start, a);
      JobsBuilt(st, jobs);
      if st.idx == 0 && st.numLt != 0 {
        jobs := jobs[at0 := SeqJob(st.numLt, st.depth, false)];
      }
      if st.idx <= 1 && st.numEq != 0 {
        if st.eqRecurse {
          jobs := jobs[at1 := SeqJob(st.numEq, st.depth + 8, true)];
        } else {
          CopyRun(strs, at1, at1 + st.numEq, out, at1);
          EqualWritten(d, quest, start, a, Now());
          board := WrittenBoard(board, at1, Now());
        }
      }
      if st.idx <= 2 && st.numGt != 0 {
        jobs := jobs[at2 := SeqJob(st.numGt, st.depth, false)];
      }
      if st.idx < 3 {
        cacheFinished := PartAt(st, st.idx);
      }
      popFront := popFront + 1;
    }

    /** Another thread runs a child job, with all its own child jobs. */
    method RunOneJob(at: nat)
      requires Valid() && at in jobs
      modifies this`jobs, this`board, out, strs, keys
      ensures Valid() && |jobs| == old(|jobs|) - 1 && jobs == old(jobs) - {at}
      decreases quest.rank, 0
    {
      hide Work, SharePrefix, Sorts, Rank, Sorted;
      ghost var d, a := State(), Now();
      var job := jobs[at];
      JobPart(d, quest, start, a, strs, keys, at);
      ghost var part := board.val[at..at + job.n];
      RunJob(out, strs, keys, at, job.n, job.depth, job.dirty, schedule, part, quest.limit, quest.size);
      JobSorts(d, quest, start, a, Now(), at);
      ChildWork(d, quest, start, a, Now(), at, out[at..at + job.n]);
      board := WrittenBoard(board, at, Now());
      jobs := jobs - {at};
      OneFewer(old(jobs), at);
    }

    /** Exactly one level was given away for every yes of has_idle(), and after every no
        one part was started. */
    ghost predicate Balanced()
      reads this`asked, this`started, this`popFront
    {
      popFront == Idles(schedule, lo, n, depth, asked) && asked == started + popFront
    }

    lemma NothingAsked()
      requires asked == started == popFront == 0
      ensures Balanced()
    {
    }

    /** sequential_mkqs() */
    method SequentialMkqs()
      requires OnArea() && stack == [] && popFront == 0 && cacheFinished == lo + n && jobs == map[] && start == Now()
      requires Holds(strs, lo, quest.whole) && (!dirty ==> KeysAt(keys, lo, quest.whole, depth)) && asked == started == 0
      modifies this, out, strs, keys
      ensures Balanced() && (popFront == 0 ==> jobs == map[])
      ensures if n < G_INSSORT_THRESHOLD then Complete() && jobs == map[]
              else Valid() && popFront == |stack| && cacheFinished == lo
      decreases quest.rank, 3
    {
      hide Balanced, Work, SharePrefix, Sorted, Rank, StackPotential, Short;
      NothingAsked();
      if n < G_INSSORT_THRESHOLD {
        ghost var u := SortCache(strs, keys, lo, n, depth, true, quest.whole);
        CopyRun(strs, lo, lo + n, out, lo);
        assert out[lo..lo + n] == u;
        return;
      }
      FirstStep();
      label jumpout: while |stack| > popFront
        invariant Valid() && Balanced() && (popFront == 0 ==> jobs == map[])
        decreases Potential(), |stack| - popFront
      {
        ghost var p0, l0 := Potential(), |stack| - popFront;
        while stack[|stack| - 1].idx < 3
          invariant Valid() && popFront < |stack| && Balanced() && (popFront == 0 ==> jobs == map[])
          invariant (Potential() < p0 || (Potential() == p0 && |stack| - popFront == l0))
          decreases Potential()
        {
          var freed := Turn();
          if freed {
            continue jumpout;
          }
        }
        PopBack();
      }
      CopyFinished();
    }

    /** has_idle() is asked; the lowest level is given away, or the next part started. */
    method Turn() returns (freed: bool)
      requires Valid() && popFront < |stack| && stack[|stack| - 1].idx < 3 && Balanced() && (popFront == 0 ==> jobs == map[])
      modifies this`stack, this`popFront, this`cacheFinished, this`jobs, this`board, this`asked, this`started, out, strs, keys
      ensures Valid() && Balanced() && (popFront == 0 ==> jobs == map[])
      ensures freed == schedule.hasIdle(lo, n, depth, old(asked))
      ensures var left := Without(old(jobs), schedule.others(lo, n, depth, old(asked)));
              jobs == if freed then GiveFront(left, old(stack[popFront])) else left
      ensures if freed then popFront == old(popFront) + 1 && stack == old(stack) && Potential() <= old(Potential())
              else popFront == old(popFront) && |stack| >= old(|stack|) && Potential() < old(Potential())
      decreases quest.rank, 2
    {
      hide Work, OnArea, StackPotential, GiveFront, Without;
      Others(schedule.others(lo, n, depth, asked));
      NoneLeft(old(jobs), schedule.others(lo, n, depth, asked));
      freed := schedule.hasIdle(lo, n, depth, asked);
      asked := asked + 1;
      if freed {
        FreeFront();
      } else {
        StartPart();
        started := started + 1;
      }
    }

    /** The first step covers the whole area. */
    method FirstStep()
      requires OnArea() && stack == [] && popFront == 0 && cacheFinished == lo + n && jobs == map[] && start == Now()
      requires Holds(strs, lo, quest.whole) && (!dirty ==> KeysAt(keys, lo, quest.whole, depth)) && G_INSSORT_THRESHOLD <= n
      modifies this`stack, this`board, strs, keys
      ensures Valid()
    {
      hide Work, SharePrefix, Rank, Short, KeysAt, Holds, NoSame;
      var step;
      step, board := MakeFirst();
      stack := [step];
    }

    /** The whole area is one piece. */
    lemma FirstFit()
      requires OnArea() && G_INSSORT_THRESHOLD <= n
      requires Holds(strs, lo, quest.whole) && (!dirty ==> KeysAt(keys, lo, quest.whole, depth))
      ensures Fit(quest.whole, keys[..], lo, Piece(n, depth, dirty, false)) && strs[lo..lo + n] == quest.whole
    {
      hide SharePrefix, Rank, Short, KeysIn, Fit;
      KeysInAt(keys, lo, quest.whole, depth);
      FitOf(quest.whole, keys[..], lo, depth, dirty);
    }

    method MakeFirst() returns (step: Step, ghost b1: Board)
      requires OnArea() && start == Now() && G_INSSORT_THRESHOLD <= n
      requires Holds(strs, lo, quest.whole) && (!dirty ==> KeysAt(keys, lo, quest.whole, depth))
      modifies strs, keys
      ensures Work(Desk(b1, [step], 0, lo + n, map[]), quest, start, Now()) && NoSame(Desk(b1, [step], 0, lo + n, map[]))
    {
      hide Work, SharePrefix, Rank, Short, Sorts, SplitFits, KeysIn, WholeBoard, Fit, ThreeParts, NoSame, KeysAt;
      ghost var a, piece := Now(), Piece(n, depth, dirty, false);
      FirstFit();
      ghost var t;
      step, t := MakeStep(strs, keys, lo, n, depth, dirty, quest.whole);
      b1 := FirstMade(quest, a, Now(), t, piece, step);
    }

    /** Other threads run these of the child jobs, in this order. */
    method Others(order: seq<nat>)
      requires Valid()
      modifies this`jobs, this`board, out, strs, keys
      ensures Valid() && jobs == Without(old(jobs), order)
      decreases quest.rank, 1
    {
      hide Work, OnArea, Without;
      var i := 0;
      WithoutNone(jobs);
      while i < |order|
        invariant 0 <= i <= |order| && Valid() && jobs == Without(old(jobs), order[..i])
      {
        WithoutOne(old(jobs), order, i);
        if order[i] in jobs {
          RunOneJob(order[i]);
        }
        i := i + 1;
      }
      assert order[..i] == order;
    }

    /** ++ms.idx, and the part it stands for. */
    method StartPart()
      requires Valid() && popFront < |stack| && stack[|stack| - 1].idx < 3
      modifies this`stack, this`board, strs, keys
      ensures Valid() && Potential() < old(Potential()) && |stack| >= old(|stack|)
    {
      hide Work, OnArea;
      var s := stack[|stack| - 1];
      if PartLen(s, s.idx) == 0 || PieceOf(s, s.idx).same || PartLen(s, s.idx) < G_INSSORT_THRESHOLD {
        SortPart(s);
      } else {
        PushPart(s);
      }
    }

    /** All parts of the top level were started. */
    method PopBack()
      requires Valid() && popFront < |stack| && stack[|stack| - 1].idx >= 3
      modifies this`stack
      ensures Valid() && Potential() < old(Potential())
    {
      hide Work, OnArea, StackPotential;
      ValidSteps(State(), quest, start, Now());
      assert stack[|stack| - 1] in stack;
      PopWork(State(), quest, start, Now());
      PopLowers(stack, popFront, quest.limit, quest.size, 4);
      stack := stack[..|stack| - 1];
    }

    /** The strings in front of cache_finished go to the output. */
    method CopyFinished()
      requires Valid() && popFront == |stack|
      modifies this`cacheFinished, this`board, out
      ensures Valid() && cacheFinished == lo
      ensures lo <= old(cacheFinished) <= lo + n && Sorted(out[lo..old(cacheFinished)])
    {
      hide Work, Rank, Short, SharePrefix, Sorted, NoSame;
      ghost var d, a := State(), Now();
      FinInside(d, quest, start, a);
      CopiedIs(d, lo);
      CopyRun(strs, lo, cacheFinished, out, lo);
      CopyDone(d, quest, start, a, Now());
      board := Copied(d).b;
      cacheFinished := lo;
    }

    /** The child jobs that are left run in any order. */
    method Drain()
      requires (Complete() && jobs == map[]) || (Valid() && popFront == |stack| && cacheFinished == lo)
      modifies this`jobs, this`board, out, strs, keys
      ensures Complete()
      decreases quest.rank, 1
    {
      hide Work, Sorted, Short, SharePrefix, Rank;
      while jobs != map[]
        invariant (Complete() && jobs == map[]) || (Valid() && popFront == |stack| && cacheFinished == lo)
        decreases |jobs|
      {
        var at :| at in jobs;
        RunOneJob(at);
      }
      if Valid() && popFront == |stack| && cacheFinished == lo {
        AllWritten(State(), quest, start, Now());
        WorkFrame(State(), quest, start, Now());
      }
    }
  }

  lemma WorkFrame(d: Desk, q: Quest, a0: Arrays, a: Arrays)
    requires Work(d, q, a0, a)
    ensures Frame(q, a0, a)
  {
  }

  lemma FinInside(d: Desk, q: Quest, a0: Arrays, a: Arrays)
    requires Work(d, q, a0, a)
    ensures q.lo <= d.fin <= q.lo + |q.whole| && Shaped(d.b) && d.b.lo == q.lo
  {
  }

  /** a' is a with the strings in front of cache_finished copied to the output. */
  lemma CopyDone(d: Desk, q: Quest, a0: Arrays, a: Arrays, a': Arrays)
    requires Work(d, q, a0, a) && d.pop == |d.stack| && a'.strs == a.strs && a'.keys == a.keys && |a'.out| == |a.out| == |a.strs|
    requires forall p | 0 <= p < |a.out| :: a'.out[p] == if q.lo <= p < d.fin then a.strs[p] else a.out[p]
    ensures Shaped(d.b) && Work(Copied(d), q, a0, a') && q.lo <= d.fin <= |a'.out| && Sorted(a'.out[q.lo..d.fin])
  {
    hide Work, Sorted;
    FinInside(d, q, a0, a);
    FinishedPrefix(d, q, a0, a);
    assert a'.out[q.lo..d.fin] == a.strs[q.lo..d.fin];
    CopyWork(d, q, a0, a, a');
  }

  lemma CopiedIs(d: Desk, lo: nat)
    requires Shaped(d.b) && d.b.lo == lo
    ensures Copied(d) == Desk(Copied(d).b, d.stack, d.pop, lo, d.jobs) && (NoSame(d) ==> NoSame(Copied(d)))
  {
  }

  /** The first step was made of the whole area. */
  lemma FirstMade(q: Quest, a: Arrays, a': Arrays, t: seq<Str>, piece: Piece, s: Step) returns (b1: Board)
    requires q.lo + |q.whole| <= |a.strs| == |a.keys| == |a.out| == |a'.strs| && a.strs[q.lo..q.lo + |q.whole|] == q.whole
    requires multiset(t) == multiset(q.whole) && |t| == |q.whole| && forall i | 0 <= i < |t| :: a'.strs[q.lo + i] == t[i]
    requires KeptOutside(a.strs, a'.strs, q.lo, |q.whole|) && KeptOutside(a.keys, a'.keys, q.lo, |q.whole|) && a'.out == a.out
    requires Short(q.whole, q.limit) && |q.whole| <= q.size && Fit(q.whole, a.keys, q.lo, piece) && piece.n == |q.whole|
    requires ThreeParts(s) && s.idx == 0 && s.lo == q.lo && s.n == |q.whole| && s.depth == piece.depth
    requires Rank(q.limit, q.size, s.depth, s.n) <= q.rank
    requires SplitFits(t, a'.keys, q.lo, s.depth, s.numLt, s.numEq, s.numGt, !s.eqRecurse)
    ensures Work(Desk(b1, [s], 0, q.lo + |q.whole|, map[]), q, a, a') && NoSame(Desk(b1, [s], 0, q.lo + |q.whole|, map[]))
  {
    hide Work, Rank, Short, Sorts, SplitFits, WholeBoard, Fit, ThreeParts, NoSame, KeptOutside;
    FirstSorts(q.lo, |q.whole|, a, a', piece, q.whole, t);
    b1 := FirstWork(q, a, a', t, piece, s);
  }

  lemma FirstSorts(lo: nat, n: nat, a: Arrays, a': Arrays, piece: Piece, s: seq<Str>, t: seq<Str>)
    requires lo + n <= |a.strs| == |a.keys| == |a.out| == |a'.strs| && a.strs[lo..lo + n] == s && multiset(s) == multiset(t) && |t| == n
    requires KeptOutside(a.strs, a'.strs, lo, n) && KeptOutside(a.keys, a'.keys, lo, n) && a'.out == a.out
    requires forall i | 0 <= i < n :: a'.strs[lo + i] == t[i]
    ensures Shaped(WholeBoard(lo, n, a, piece)) && Sorts(WholeBoard(lo, n, a, piece), a, a', a'.strs, lo, n, t)
  {
  }

  /** A child job's part of the cache. */
  lemma JobPart(d: Desk, q: Quest, a0: Arrays, a: Arrays, strs: array<Str>, keys: array<nat>, at: nat)
    requires Work(d, q, a0, a) && NoSame(d) && at in d.jobs && a.strs == strs[..] && a.keys == keys[..]
    ensures Shaped(d.b) && at in d.b.open && d.b.open[at].n == d.jobs[at].n && at + d.jobs[at].n <= |d.b.val| == keys.Length
    ensures var part, j := d.b.val[at..at + d.jobs[at].n], d.jobs[at];
            && Holds(strs, at, part) && SharePrefix(part, j.depth) && (!j.dirty ==> KeysAt(keys, at, part, j.depth))
            && Short(part, q.limit) && j.n <= q.size && Rank(q.limit, q.size, j.depth, j.n) < q.rank
  {
    hide RanksOk, Frame, SharePrefix, KeysAt, KeysIn, K, StackOpen, Chained, GivenFrom, FinIsEnd, Ordered, Headed, Rank;
    FitNonEmpty(d.b, at);
    var piece := d.b.open[at];
    var n := piece.n;
    assert PieceOk(d.b, at, piece);
    var part := d.b.val[at..at + n];
    forall i | 0 <= i < n ensures strs[at + i] == part[i] {
      assert d.b.val[at + i] == a.strs[at + i];
    }
    KeysInAt(keys, at, part, piece.depth);
    DepthBelow(d.b, q, at, piece);
    ShortSlice(d.b, q, at, n);
    JobRank(d, q, at);
  }

  lemma JobRank(d: Desk, q: Quest, at: nat)
    requires RanksOk(d, q) && NoSame(d) && at in d.jobs && at in d.b.open
    ensures Rank(q.limit, q.size, d.jobs[at].depth, d.jobs[at].n) < q.rank && !d.b.open[at].same
  {
    hide Rank;
  }

  lemma ShortSlice(b: Board, q: Quest, at: nat, n: nat)
    requires Shaped(b) && OnQuest(b, q) && b.lo <= at && at + n <= b.hi
    ensures Short(b.val[at..at + n], q.limit)
  {
    var whole, s := b.val[b.lo..b.hi], b.val[at..at + n];
    forall x | x in s ensures |x.text| <= q.limit {
      var i :| 0 <= i < |s| && s[i] == x;
      assert whole[at + i - b.lo] == x;
      assert x in multiset(whole);
      assert x in multiset(q.whole);
    }
  }

  /** What a child job did to memory. */
  lemma JobSorts(d: Desk, q: Quest, a0: Arrays, a: Arrays, a': Arrays, at: nat)
    requires Work(d, q, a0, a) && at in d.jobs && at in d.b.open && at + d.jobs[at].n <= |d.b.val| && d.b.open[at].n == d.jobs[at].n
    requires |a'.out| == |d.b.val| && multiset(a'.out[at..at + d.jobs[at].n]) == multiset(d.b.val[at..at + d.jobs[at].n])
    requires var n := d.jobs[at].n;
             KeptOutside(a.strs, a'.strs, at, n) && KeptOutside(a.keys, a'.keys, at, n) && KeptOutside(a.out, a'.out, at, n)
    ensures Shaped(d.b) && Sorts(d.b, a, a', a'.out, at, d.jobs[at].n, a'.out[at..at + d.jobs[at].n])
  {
    hide DeskOk, RanksOk, Frame, OnQuest;
  }

  /** A sequential job with all its child jobs, which run at any time after they
      were made. */
  method RunJob(out: array<Str>, strs: array<Str>, keys: array<nat>, lo: nat, n: nat, depth: nat, dirty: bool, schedule: Schedule,
                ghost s: seq<Str>, ghost limit: nat, ghost size: nat)
    requires out != strs && out.Length == strs.Length == keys.Length && |s| == n && Holds(strs, lo, s)
    requires Short(s, limit) && n <= size && SharePrefix(s, depth) && (!dirty ==> KeysAt(keys, lo, s, depth))
    modifies out, strs, keys
    ensures lo + n <= out.Length && Sorted(out[lo..lo + n]) && multiset(out[lo..lo + n]) == multiset(s)
    ensures SameOutside(out, lo, n) && SameOutside(strs, lo, n) && SameOutside(keys, lo, n)
    decreases Rank(limit, size, depth, n), 4
  {
    hide Work, NoSame, Sorted, Short, SharePrefix, Rank, KeysAt;
    var job := new SequentialJob(out, strs, keys, lo, n, depth, dirty, schedule, s, limit, size);
    job.SequentialMkqs();
    job.Drain();
  }

  lemma LowerByFree(d: Desk, q: Quest, a0: Arrays, a: Arrays)
    requires Work(d, q, a0, a) && d.pop < |d.stack|
    ensures forall s | s in d.stack :: ValidStep(s)
    ensures StackPotential(d.stack, d.pop + 1, q.limit, q.size, 4) <= StackPotential(d.stack, d.pop, q.limit, q.size, 4)
  {
    hide Work, StackPotential;
    ValidSteps(d, q, a0, a);
    FreeLowers(d.stack, d.stack, d.pop, d.pop + 1, q.limit, q.size, 4);
  }

  /** The jobs that FreeFront makes, with st.numEq > 0. */
  lemma JobsBuilt(st: Step, jobs: map<nat, SeqJob>)
    requires ThreeParts(st)
    ensures var at0, at1, at2 := PartAt(st, 0), PartAt(st, 1), PartAt(st, 2);
            var j0 := if st.idx == 0 && st.numLt != 0 then jobs[at0 := SeqJob(st.numLt, st.depth, false)] else jobs;
            var j1 := if st.idx <= 1 then j0[at1 := SeqJob(st.numEq, st.depth + 8, true)] else j0;
            var j2 := if st.idx <= 2 && st.numGt != 0 then j1[at2 := SeqJob(st.numGt, st.depth, false)] else j1;
            var j2' := if st.idx <= 2 && st.numGt != 0 then j0[at2 := SeqJob(st.numGt, st.depth, false)] else j0;
            jobs + JobsOfStep(st) == j2 && (st.idx <= 1 && at1 !in jobs ==> j2' == j2 - {at1})
  {
  }

  /** Where the given-away parts lie. */
  lemma FreedFacts(d: Desk, q: Quest, a0: Arrays, a: Arrays)
    requires Work(d, q, a0, a) && d.pop < |d.stack|
    ensures var st := d.stack[d.pop];
            && ThreeParts(st) && PartAt(st, 3) == d.fin && PartAt(st, st.idx) <= d.fin
            && (NoSame(d) && (st.eqRecurse || st.idx > 1) ==> NoSame(GivenAway(d)))
            && (st.idx <= 1 ==> PartAt(st, 1) !in d.jobs && PartAt(st, 1) in d.b.open && PartAt(st, 1) in GivenAway(d).jobs
                                && d.b.open[PartAt(st, 1)] == PieceOf(st, 1) && PartAt(st, 1) + st.numEq <= |a.strs| == |a.out|
                                && PartAt(st, 1) < d.fin)
            && (NoSame(d) && st.idx <= 1 && !st.eqRecurse ==> NoSame(GivenAway(d).(jobs := GivenAway(d).jobs - {PartAt(st, 1)})))
  {
    hide RanksOk, Frame, PartAt, JobsOfStep, BoardOk, OnQuest, GivenFrom, StackOpen, Chained, RanksOk;
    DeskSteps(d, d.pop);
    FreeFin(d);
    var st := d.stack[d.pop];
    if st.idx <= 1 {
      assert Waits(d, d.pop, 1);
      WaitOpen(d, d.pop, 1);
      JobsOfStepExact(st, 1);
      FreeSides(d, d.pop, 1);
    }
    FreedSame(d);
  }

  lemma FreedSame(d: Desk)
    requires DeskOk(d) && d.pop < |d.stack|
    ensures var st := d.stack[d.pop];
            forall at | at in JobsOfStep(st) && at in d.b.open && d.b.open[at].same :: at == PartAt(st, 1) && st.idx <= 1 && !st.eqRecurse
  {
    hide PartAt, JobsOfStep, BoardOk, GivenFrom, JobsOpen, Chained, FinIsEnd;
    DeskSteps(d, d.pop);
    var st := d.stack[d.pop];
    forall at | at in JobsOfStep(st) && at in d.b.open && d.b.open[at].same ensures at == PartAt(st, 1) && st.idx <= 1 && !st.eqRecurse {
      var j := JobsOfStepOnly(st, at);
      assert Waits(d, d.pop, j);
    }
  }

  /** The equal texts of the freed level were copied to the output. */
  lemma EqualWritten(d: Desk, q: Quest, a0: Arrays, a: Arrays, a': Arrays)
    requires Work(d, q, a0, a) && d.pop < |d.stack|
    requires var st := d.stack[d.pop]; st.MkqsStep? && st.idx <= 1 && st.numEq > 0 && !st.eqRecurse
    requires var st := d.stack[d.pop];
             a'.strs == a.strs && a'.keys == a.keys && |a'.out| == |a.out| && PartAt(st, 1) + st.numEq <= |a.strs|
             && forall p | 0 <= p < |a.out| :: a'.out[p] == if PartAt(st, 1) <= p < PartAt(st, 1) + st.numEq then a.strs[p] else a.out[p]
    ensures var d1, at := GivenAway(d), PartAt(d.stack[d.pop], 1);
            && Shaped(d.b) && at in d.b.open && at + d.b.open[at].n <= |d.b.val| == |a'.out|
            && Work(d1.(b := WrittenBoard(d.b, at, a'), jobs := d1.jobs - {at}), q, a0, a')
  {
    hide RanksOk, Frame, PartAt, JobsOfStep, BoardOk, OnQuest, GivenFrom, StackOpen, Chained, JobsOpen, FinIsEnd, SameText, Work;
    FreeWork(d, q, a0, a);
    var d1, at, n := GivenAway(d), PartAt(d.stack[d.pop], 1), d.stack[d.pop].numEq;
    FreedFacts(d, q, a0, a);
    EqualSorts(d, q, a0, a, a');
    var t := d.b.val[at..at + n];
    SameTextSorted(t);
    ChildWork(d1, q, a0, a, a', at, t);
  }

  lemma EqualSorts(d: Desk, q: Quest, a0: Arrays, a: Arrays, a': Arrays)
    requires Work(d, q, a0, a) && d.pop < |d.stack|
    requires var st := d.stack[d.pop]; st.MkqsStep? && st.idx <= 1 && st.numEq > 0 && !st.eqRecurse
    requires var st := d.stack[d.pop];
             a'.strs == a.strs && a'.keys == a.keys && |a'.out| == |a.out| && PartAt(st, 1) + st.numEq <= |a.strs|
             && forall p | 0 <= p < |a.out| :: a'.out[p] == if PartAt(st, 1) <= p < PartAt(st, 1) + st.numEq then a.strs[p] else a.out[p]
    ensures var at, n := PartAt(d.stack[d.pop], 1), d.stack[d.pop].numEq;
            && Shaped(d.b) && at + n <= |d.b.val| && SameText(d.b.val[at..at + n])
            && Sorts(d.b, a, a', a'.out, at, n, d.b.val[at..at + n])
  {
    hide RanksOk, Frame, PartAt, JobsOfStep, OnQuest, GivenFrom, StackOpen, Chained, JobsOpen, FinIsEnd, SameText, Ordered, Headed;
    DeskSteps(d, d.pop);
    assert Waits(d, d.pop, 1);
    WaitOpen(d, d.pop, 1);
    NotWritten(d.b, PartAt(d.stack[d.pop], 1));
  }

  /** All steps of a desk are well formed. */
  lemma ValidSteps(d: Desk, q: Quest, a0: Arrays, a: Arrays)
    requires Work(d, q, a0, a)
    ensures forall s | s in d.stack :: ValidStep(s) && ThreeParts(s)
  {
    hide BoardOk, StackOpen, JobsOpen, GivenFrom, FinIsEnd, Stored, OnQuest, RanksOk, Frame;
    forall s | s in d.stack ensures ValidStep(s) && ThreeParts(s) {
      var k :| 0 <= k < |d.stack| && d.stack[k] == s;
    }
  }

  lemma TernaryLeft(s: Step)
    requires ThreeParts(s) && s.idx < 3
    ensures ValidStep(s) && ValidStep(Counted(s))
    ensures Left(s) == PartLen(s, s.idx) + Left(Counted(s))
    ensures PartCount(s) == 3 && PartOffset(s, 0) == 0
  {
  }

  lemma LowerByStart(d: Desk, q: Quest, a0: Arrays, a: Arrays)
    requires Work(d, q, a0, a) && AtNext(d)
    ensures forall s | s in d.stack :: ValidStep(s)
    ensures forall s | s in Bumped(d.stack) :: ValidStep(s)
    ensures StackPotential(Bumped(d.stack), d.pop, q.limit, q.size, 4) < StackPotential(d.stack, d.pop, q.limit, q.size, 4)
  {
    hide Work, StackPotential, Left;
    ValidSteps(d, q, a0, a);
    var s := d.stack[|d.stack| - 1];
    TernaryLeft(s);
    StartLowersBy(d.stack, d.pop, q.limit, q.size, 4);
  }

  lemma StepOfNextIs(d: Desk, s: Step)
    requires AtNext(d) && ThreeParts(s) && s.idx == 0 && s.lo == NextAt(d) && s.n == NextLen(d)
    requires s.depth == PieceOf(d.stack[|d.stack| - 1], d.stack[|d.stack| - 1].idx).depth
    ensures StepOfNext(d, s)
  {
  }

  lemma LowerByPush(d: Desk, q: Quest, a0: Arrays, a: Arrays, child: Step)
    requires Work(d, q, a0, a) && AtNext(d) && NextLen(d) > 0 && StepOfNext(d, child)
    requires !PieceOf(d.stack[|d.stack| - 1], d.stack[|d.stack| - 1].idx).same
    ensures forall s | s in d.stack :: ValidStep(s)
    ensures forall s | s in Bumped(d.stack) + [child] :: ValidStep(s)
    ensures StackPotential(Bumped(d.stack) + [child], d.pop, q.limit, q.size, 4) < StackPotential(d.stack, d.pop, q.limit, q.size, 4)
  {
    hide Work, StackPotential, Left, Rank;
    ValidSteps(d, q, a0, a);
    var s := d.stack[|d.stack| - 1];
    TernaryLeft(s);
    TernaryLeft(child);
    WaitRank(d, q, a0, a, |d.stack| - 1, s.idx);
    PushLowersBy(d.stack, child, d.pop, q.limit, q.size, 4);
  }

  /** The next part lies in the cache, with its keys if they are clean. */
  lemma NextPart(d: Desk, q: Quest, a0: Arrays, a: Arrays, strs: array<Str>, keys: array<nat>)
    requires Work(d, q, a0, a) && AtNext(d) && NextLen(d) > 0 && a.strs == strs[..] && a.keys == keys[..]
    requires !PieceOf(d.stack[|d.stack| - 1], d.stack[|d.stack| - 1].idx).same
    ensures Shaped(d.b) && NextAt(d) + NextLen(d) <= |d.b.val| == keys.Length
    ensures var part, piece := d.b.val[NextAt(d)..NextAt(d) + NextLen(d)], PieceOf(d.stack[|d.stack| - 1], d.stack[|d.stack| - 1].idx);
            && Holds(strs, NextAt(d), part) && SharePrefix(part, piece.depth)
            && (!piece.dirty ==> KeysAt(keys, NextAt(d), part, piece.depth))
  {
    hide DeskOk, OnQuest, RanksOk, Frame, SharePrefix, KeysIn, KeysAt, PartAt, PartLen, K;
    NextOpen(d);
    var at, n := NextAt(d), NextLen(d);
    var part, piece := d.b.val[at..at + n], PieceOf(d.stack[|d.stack| - 1], d.stack[|d.stack| - 1].idx);
    forall i | 0 <= i < n ensures strs[at + i] == part[i] {
      assert d.b.val[at + i] == a.strs[at + i];
    }
    KeysInAt(keys, at, part, piece.depth);
  }

  /** What sorting inside the cache did to memory. */
  lemma SortsCache(d: Desk, q: Quest, a0: Arrays, a: Arrays, a': Arrays, at: nat, n: nat, t: seq<Str>)
    requires Work(d, q, a0, a) && at + n <= |d.b.val| && |t| == n && multiset(t) == multiset(d.b.val[at..at + n])
    requires KeptOutside(a.strs, a'.strs, at, n) && KeptOutside(a.keys, a'.keys, at, n) && a'.out == a.out
    requires at + n <= |a'.strs| && forall i | 0 <= i < n :: a'.strs[at + i] == t[i]
    ensures Shaped(d.b) && Sorts(d.b, a, a', a'.strs, at, n, t)
  {
    hide DeskOk, OnQuest, RanksOk, Frame;
  }
}
