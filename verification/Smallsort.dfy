/** SmallsortJob: sequential sample sort and cached multikey quicksort on two
    explicit stacks, whose lowest levels may be given away to idle threads after
    every round (src/parallel/bingmann-parallel_sample_sort.hpp). */
module Smallsort {
  import opened Areas
  import opened CachedInsertion
  import opened Cells
  import Classifier
  import opened CleanCaches
  import opened Cores
  import opened Jobs
  import opened Levels
  import opened MakeSteps
  import Multiples
  import Once
  import opened Partition
  import opened Potential
  import opened SampleSteps
  import opened StableSort
  import opened Steps
  import opened Stores
  import opened Strings
  import opened Wrappers

  const G_SMALLSORT_THRESHOLD := 1024 * 1024
  const G_INSSORT_THRESHOLD := 32

  /** What all jobs of one sort share. The schedule: hasIdle is what jobqueue.has_idle()
      answers to a job when it asks for the i-th time, others names the child jobs that
      other threads run after that (after its i-th bucket for a parallel step). */
  datatype Context = Context(totalsize: nat, threadnum: nat, treebits: nat, hasIdle: (Job, nat) -> bool, others: (Job, nat) -> seq<Child>)

  /** How many of the first n answers to a job were yes. */
  ghost function Idles(ctx: Context, job: Job, n: nat): (c: nat) {
    if n == 0 then 0 else Idles(ctx, job, n - 1) + if ctx.hasIdle(job, n - 1) then 1 else 0
  }

  predicate ValidContext(ctx: Context) {
    ctx.threadnum > 0 && ctx.treebits > 0
  }

  /** sequential_threshold() */
  function SequentialThreshold(ctx: Context): (t: nat)
    requires ctx.threadnum > 0
    ensures t >= G_SMALLSORT_THRESHOLD
  {
    var share := ctx.totalsize / ctx.threadnum;
    if share > G_SMALLSORT_THRESHOLD then share else G_SMALLSORT_THRESHOLD
  }

  lemma SequentialThresholdExact(ctx: Context, share: nat)
    requires ctx.threadnum > 0 && share * ctx.threadnum <= ctx.totalsize < share * ctx.threadnum + ctx.threadnum
    ensures SequentialThreshold(ctx) == if share > 1024 * 1024 then share else 1024 * 1024
  {
    Multiples.QuotientIs(ctx.totalsize, ctx.threadnum, share);
  }

  /** Given-away levels are below all live ones, over both stacks. */
  ghost predicate Shape(samples: seq<Step>, samplePop: nat, mkqs: seq<Step>, mkqsPop: nat, numsplitters: nat) {
    && samplePop <= |samples| && mkqsPop <= |mkqs| && (mkqsPop > 0 ==> samplePop == |samples|)
    && (forall s | s in samples :: s.SampleStep? && ValidStep(s) && |s.splitter| == numsplitters)
    && (forall s | s in mkqs :: s.MkqsStep? && ValidStep(s))
  }

  // ------------------------------------------------------ what is given away

  /** The job for part j of step s. Strings with equal keys are sorted eight characters
      deeper, those between two splitters by the LCP of the splitters, all others at
      the depth of the step. */
  predicate IsJobFor(job: Job, s: Step, j: nat)
    requires ValidStep(s) && j < PartCount(s)
  {
    && job.lo == s.lo + PartOffset(s, j) && job.n == PartSize(s, j) && job.flip == PartFlip(s)
    && match s
       case MkqsStep(_, _, _, depth, _, _, _, _, _, _, _, _) => job.depth == if j == 1 then depth + 8 else depth
       case SampleStep(_, _, _, depth, _, _, splitterLcp, _) =>
         job.depth == if j % 2 == 1 then depth + 8 else depth + splitterLcp[j / 2] % 0x80
  }

  /** Part c has not been started yet, and needs to be sorted. */
  predicate Unsorted(s: Step, c: nat)
    requires ValidStep(s)
  {
    s.idx <= c < PartCount(s) && PartSize(s, c) != 0 && !Finished(s, c)
  }

  /** Part c belongs to one of the steps from..to that are given away. */
  predicate Given(c: Child, steps: seq<Step>, from: nat, to: nat) {
    from < c.level <= to && c.level <= |steps| && ValidStep(steps[c.level - 1]) && Unsorted(steps[c.level - 1], c.part)
  }

  /** Exactly the unsorted parts of these steps became jobs, and nothing else changed. */
  ghost predicate GaveAway(steps: seq<Step>, from: nat, to: nat, jobs: map<Child, Job>, jobs': map<Child, Job>) {
    && (forall c :: c in jobs' <==> c in jobs || Given(c, steps, from, to))
    && (forall c | c in jobs :: c in jobs' && jobs'[c] == jobs[c])
    && (forall c | Given(c, steps, from, to) :: c !in jobs && c in jobs' && IsJobFor(jobs'[c], steps[c.level - 1], c.part))
  }

  /** Exactly the unsorted ones of the parts from first to last became jobs. */
  ghost predicate PartsGiven(s: Step, k: nat, first: nat, last: nat, jobs: map<Child, Job>, jobs': map<Child, Job>)
    requires ValidStep(s) && last <= PartCount(s)
  {
    && (forall c :: c in jobs' <==> c in jobs || PartGiven(c, s, k, first, last))
    && (forall c | c in jobs :: c in jobs' && jobs'[c] == jobs[c])
    && (forall c | PartGiven(c, s, k, first, last) :: c !in jobs && c in jobs' && IsJobFor(jobs'[c], s, c.part))
  }

  predicate PartGiven(c: Child, s: Step, k: nat, first: nat, last: nat)
    requires ValidStep(s) && last <= PartCount(s)
  {
    c.level == k && first <= c.part < last && PartSize(s, c.part) != 0 && !Finished(s, c.part)
  }

  lemma NoPartsGiven(s: Step, k: nat, first: nat, jobs: map<Child, Job>)
    requires ValidStep(s) && first <= PartCount(s)
    ensures PartsGiven(s, k, first, first, jobs, jobs)
  {
  }

  lemma MorePartsGiven(s: Step, k: nat, first: nat, j: nat, jobs: map<Child, Job>, jobs1: map<Child, Job>, jobs2: map<Child, Job>)
    requires ValidStep(s) && first <= j < PartCount(s) && PartsGiven(s, k, first, j, jobs, jobs1)
    requires if PartSize(s, j) == 0 || Finished(s, j) then jobs2 == jobs1
             else Child(k, j) !in jobs1 && Child(k, j) in jobs2 && IsJobFor(jobs2[Child(k, j)], s, j)
                  && jobs2 == jobs1[Child(k, j) := jobs2[Child(k, j)]]
    ensures PartsGiven(s, k, first, j + 1, jobs, jobs2)
  {
    hide PartSize, Finished, IsJobFor;
    forall c: Child
      ensures c in jobs2 <==> c in jobs || PartGiven(c, s, k, first, j + 1)
      ensures c in jobs ==> c in jobs2 && jobs2[c] == jobs[c]
      ensures PartGiven(c, s, k, first, j + 1) ==> c !in jobs && c in jobs2 && IsJobFor(jobs2[c], s, c.part)
    {
      assert PartGiven(c, s, k, first, j + 1) <==> PartGiven(c, s, k, first, j) || (c == Child(k, j) && PartSize(s, j) != 0 && !Finished(s, j));
    }
  }

  /** The parts of one step. */
  lemma OneGivenAway(steps: seq<Step>, s: Step, k: nat, jobs: map<Child, Job>, jobs': map<Child, Job>)
    requires k < |steps| && ValidStep(s) && s == steps[k].(idx := s.idx) && ValidStep(steps[k]) && steps[k].idx <= PartCount(s)
    requires PartsGiven(s, k + 1, steps[k].idx, PartCount(s), jobs, jobs')
    ensures GaveAway(steps, k, k + 1, jobs, jobs')
  {
    AnyIdx(steps[k], s.idx);
    forall c: Child
      ensures c in jobs' <==> c in jobs || Given(c, steps, k, k + 1)
      ensures c in jobs ==> c in jobs' && jobs'[c] == jobs[c]
      ensures Given(c, steps, k, k + 1) ==> c !in jobs && c in jobs' && IsJobFor(jobs'[c], steps[c.level - 1], c.part)
    {
      SameGiven(c, steps, s, k);
    }
  }

  lemma GivenTwice(steps: seq<Step>, a: nat, b: nat, d: nat, jobs: map<Child, Job>, jobs1: map<Child, Job>, jobs2: map<Child, Job>)
    requires a <= b <= d && GaveAway(steps, a, b, jobs, jobs1) && GaveAway(steps, b, d, jobs1, jobs2)
    ensures GaveAway(steps, a, d, jobs, jobs2)
  {
    hide IsJobFor, PartSize, Finished;
    forall c: Child
      ensures c in jobs2 <==> c in jobs || Given(c, steps, a, d)
      ensures c in jobs ==> c in jobs2 && jobs2[c] == jobs[c]
      ensures Given(c, steps, a, d) ==> c !in jobs && c in jobs2 && IsJobFor(jobs2[c], steps[c.level - 1], c.part)
    {
      assert Given(c, steps, a, d) <==> Given(c, steps, a, b) || Given(c, steps, b, d);
    }
  }

  lemma LevelsTwice(levels: seq<Level>, levels1: seq<Level>, levels2: seq<Level>, a: nat, b: nat, d: nat)
    requires a <= b <= d && LevelsFreed(levels, levels1, a, b) && LevelsFreed(levels1, levels2, b, d)
    ensures LevelsFreed(levels, levels2, a, d)
  {
  }

  lemma LevelsSame(levels: seq<Level>, levels': seq<Level>, a: nat, b: nat)
    requires LevelsFreed(levels, levels', a, b)
    ensures SameParts(levels, levels')
  {
  }

  lemma NoneGivenAway(steps: seq<Step>, from: nat, jobs: map<Child, Job>)
    ensures GaveAway(steps, from, from, jobs, jobs)
  {
  }

  lemma SameGiven(c: Child, steps: seq<Step>, s: Step, k: nat)
    requires k < |steps| && ValidStep(s) && s == steps[k].(idx := s.idx) && ValidStep(steps[k]) && steps[k].idx <= PartCount(s)
    ensures Given(c, steps, k, k + 1) <==> PartGiven(c, s, k + 1, steps[k].idx, PartCount(s))
  {
    AnyIdx(steps[k], s.idx);
  }

  /** Parts do not depend on idx. */
  lemma AnyIdx(s: Step, i: nat)
    requires ValidStep(s)
    ensures var s' := s.(idx := i);
            && ValidStep(s') && PartCount(s') == PartCount(s)
            && forall j: nat | j < PartCount(s) :: PartOffset(s', j) == PartOffset(s, j) && PartSize(s', j) == PartSize(s, j)
                 && (Finished(s', j) <==> Finished(s, j)) && PartDepth(s', j) == PartDepth(s, j)
    ensures PartFlip(s.(idx := i)) == PartFlip(s)
  {
  }

  /** Exactly these levels were freed. */
  ghost predicate LevelsFreed(levels: seq<Level>, levels': seq<Level>, from: nat, to: nat) {
    |levels| == |levels'| && forall k | 0 <= k < |levels| :: levels'[k] == levels[k].(freed := levels[k].freed || from < k <= to)
  }

  /** From v to v', the levels up to the new pop index were given away. */
  ghost predicate GaveLevels(v: View, v': View) {
    v.pop <= v'.pop && LevelsFreed(v.levels, v'.levels, v.pop, v'.pop) && GaveAway(v.steps, v.pop, v'.pop, v.jobs, v'.jobs)
  }

  lemma NothingGiven(v: View)
    ensures GaveLevels(v, v)
  {
    hide Given;
    NoneGivenAway(v.steps, v.pop, v.jobs);
  }

  lemma GaveTwice(v: View, v1: View, v2: View)
    requires v1.steps == v.steps && GaveLevels(v, v1) && GaveLevels(v1, v2)
    ensures GaveLevels(v, v2)
  {
    hide GaveAway, LevelsFreed;
    GivenTwice(v.steps, v.pop, v1.pop, v2.pop, v.jobs, v1.jobs, v2.jobs);
    LevelsTwice(v.levels, v1.levels, v2.levels, v.pop, v1.pop, v2.pop);
  }

  lemma GaveOne(v: View, v': View, s: Step)
    requires v.pop < |v.steps| && ValidStep(v.steps[v.pop]) && ValidStep(s) && s == v.steps[v.pop].(idx := s.idx)
    requires v.steps[v.pop].idx <= PartCount(s) && v'.pop == v.pop + 1 && v.pop + 1 < |v.levels| && v'.levels == Free(v.levels, v.pop + 1)
    requires PartsGiven(s, v.pop + 1, v.steps[v.pop].idx, PartCount(s), v.jobs, v'.jobs)
    ensures GaveLevels(v, v')
  {
    hide PartsGiven, GaveAway;
    OneGivenAway(v.steps, s, v.pop, v.jobs, v'.jobs);
  }

  lemma GaveSame(v: View, v': View)
    requires GaveLevels(v, v')
    ensures SameParts(v.levels, v'.levels)
  {
    hide GaveAway, LevelsFreed;
    LevelsSame(v.levels, v'.levels, v.pop, v'.pop);
  }

  /** The jobs that are left when these have run. */
  function Without(jobs: map<Child, Job>, ran: seq<Child>): (r: map<Child, Job>) {
    map c | c in jobs && c !in ran :: jobs[c]
  }

  lemma LeftIs(jobs: map<Child, Job>, ran: seq<Child>, c: Child)
    ensures c in Without(jobs, ran) <==> c in jobs && c !in ran
    ensures c in Without(jobs, ran) ==> Without(jobs, ran)[c] == jobs[c]
  {
  }

  lemma WithoutOne(jobs: map<Child, Job>, ran: seq<Child>, i: nat)
    requires i < |ran|
    ensures Without(jobs, ran[..i + 1]) == Without(jobs, ran[..i]) - {ran[i]}
    ensures ran[i] !in Without(jobs, ran[..i]) ==> Without(jobs, ran[..i + 1]) == Without(jobs, ran[..i])
  {
    assert ran[..i + 1] == ran[..i] + [ran[i]];
  }

  lemma WithoutNone(jobs: map<Child, Job>)
    ensures Without(jobs, []) == jobs
  {
  }

  /** How far a call of mkqs_free_work() gets. */
  function EightMore(pop: nat, size: nat): (p: nat) {
    if size < pop + 8 then size else pop + 8
  }

  class SmallsortJob {
    const st: Store
    const lo: nat
    const n: nat
    const flip: bool
    const depth: nat
    const ctx: Context
    const numsplitters: nat
    ghost const task: Task

    var cache: array<nat>
    var sampleStack: seq<Step>
    var samplePop: nat
    var mkqsStack: seq<Step>
    var mkqsPop: nat
    /** m_substep_working, and the enqueued jobs that it counts. */
    var working: nat
    var jobs: map<Child, Job>
    /** substep_all_done() has run. */
    var done: bool
    /** How often has_idle() was asked. */
    var asked: nat

    /** Finished rounds of the two sorting loops. */
    ghost var rounds: nat
    ghost var levels: seq<Level>
    ghost var start: Mem
    /** What has happened to the sub-areas and the levels. */
    ghost var history: seq<Once.Ledger>

    ghost function Now(started: bool): (v: View)
      reads this
    {
      View(task, sampleStack + mkqsStack, levels, jobs, samplePop + mkqsPop, started)
    }

    /** pending: parts of a level that is just being given away. */
    ghost predicate Open(started: bool, pending: set<Child>)
      reads this, st.orig, st.shadow, st.lcp
    {
      && ValidStore(st) && ValidContext(ctx) && numsplitters == Classifier.Pow(ctx.treebits) - 1 > 0 && cache != st.lcp && levels != []
      && task.lo == lo && |task.whole| == n && task.flip == flip && task.depth == depth
      && Shape(sampleStack, samplePop, mkqsStack, mkqsPop, numsplitters)
      && Core(start, Snap(st), Now(started), pending) && Once.Tracks(history, levels, jobs.Keys, pending)
    }

    ghost predicate Valid(started: bool)
      reads this, st.orig, st.shadow, st.lcp
    {
      Open(started, {})
    }

    /** The wrapper of the job is still running and counts as one substep. */
    ghost predicate Running(started: bool)
      reads this, st.orig, st.shadow, st.lcp
    {
      Valid(started) && working == |jobs| + 1 && !done
    }

    ghost function SamplePotential(): (p: nat)
      requires Shape(sampleStack, samplePop, mkqsStack, mkqsPop, numsplitters)
      reads this
    {
      StackPotential(sampleStack, samplePop, task.limit, task.size, 2 * numsplitters + 2)
    }

    ghost function MkqsPotential(): (p: nat)
      requires Shape(sampleStack, samplePop, mkqsStack, mkqsPop, numsplitters)
      reads this
    {
      StackPotential(mkqsStack, mkqsPop, task.limit, task.size, 2 * numsplitters + 2)
    }

    /** enqueue: nothing of the area has been touched. */
    constructor (st: Store, ctx: Context, lo: nat, n: nat, flip: bool, depth: nat, ghost task: Task)
      requires ValidStore(st) && ValidContext(ctx) && TaskOk(task)
      requires task.lo == lo && |task.whole| == n && task.flip == flip && task.depth == depth
      requires At(Side(Snap(st), flip), lo, task.whole)
      ensures this.st == st && this.task == task
      ensures fresh(cache) && start == old(Snap(st)) && unchanged(st.orig, st.shadow, st.lcp)
      ensures Valid(false) && working == 0 && jobs == map[] && !done && sampleStack == [] && mkqsStack == [] && asked == rounds == 0
      ensures samplePop == mkqsPop == 0 && levels == [Level(flip, lo, [task.whole], 0, false)]
    {
      this.st, this.lo, this.n, this.flip, this.depth := st, lo, n, flip, depth;
      this.ctx, this.numsplitters, this.task := ctx, Classifier.Pow(ctx.treebits) - 1, task;
      cache := new nat[0];
      sampleStack, samplePop, mkqsStack, mkqsPop := [], 0, [], 0;
      working, jobs, done, asked, rounds := 0, map[], false, 0, 0;
      levels := [Level(flip, lo, [task.whole], 0, false)];
      start := Snap(st);
      history := Once.Started(Level(flip, lo, [task.whole], 0, false));
      new;
      Once.TrackStart(levels[0]);
      CoreStart(Snap(st), task);
      assert sampleStack + mkqsStack == [];
    }

    /** All levels that are left were given away. */
    ghost predicate Settled()
      reads this
    {
      samplePop == |sampleStack| && mkqsPop == |mkqsStack|
    }

    ghost function IdleTimes(): (c: nat)
      reads this`asked
    {
      Idles(ctx, Job(lo, n, flip, depth), asked)
    }

    /** Levels were given away only for idle threads, at most eight at a time, and at
        least one for each. */
    ghost predicate Balanced()
      reads this`asked, this`samplePop, this`mkqsPop
    {
      IdleTimes() <= samplePop + mkqsPop <= 8 * IdleTimes()
    }

    /** Without a freed sample sort level nobody was idle. */
    ghost predicate NoneIdle()
      reads this`asked, this`samplePop
    {
      samplePop == 0 ==> IdleTimes() == 0
    }

    /** MKQS levels are only given away when no sample sort level is left. */
    lemma SamplesFirst()
      requires Running(false) && Balanced() && samplePop < |sampleStack|
      ensures NoneIdle()
    {
      hide Core, Once.Tracks, IdleTimes;
    }

    /** The same as Balanced, but for up to `slack` times when nothing was left to give. */
    ghost predicate Shared(slack: nat)
      reads this
    {
      Balanced() || (Settled() && IdleTimes() <= samplePop + mkqsPop + slack && samplePop + mkqsPop <= 8 * IdleTimes())
    }

    ghost predicate Complete()
      reads this, st.orig, st.shadow, st.lcp
    {
      done && Done(Snap(st), lo, task.whole) && Within(start, Snap(st), lo, n) && Once.AllOnce(history)
    }

    lemma LiveShape()
      requires Valid(false)
      ensures samplePop <= |sampleStack| && mkqsPop <= |mkqsStack| && (mkqsPop > 0 ==> samplePop == |sampleStack|)
      ensures |levels| == |sampleStack| + |mkqsStack| + 1
    {
      hide Core, Once.Tracks, Once.Record;
      CoreShape(start, Snap(st), Now(false), {});
    }

    /** Part j of level k, which is being given away: empty, finished, or a job. */
    method FreePart(s: Step, k: nat, j: nat, ghost pending: set<Child>)
      requires Open(false, pending) && Child(k, j) in pending
      requires 0 < k <= |sampleStack + mkqsStack| && s == (sampleStack + mkqsStack)[k - 1] && ValidStep(s) && j < PartCount(s)
      modifies this`history, this`jobs, this`working, st.orig, st.lcp
      ensures Open(false, pending - {Child(k, j)})
      ensures working - |jobs| == old(working - |jobs|)
      ensures if PartSize(s, j) == 0 || Finished(s, j) then jobs == old(jobs)
              else Child(k, j) !in old(jobs) && Child(k, j) in jobs && IsJobFor(jobs[Child(k, j)], s, j)
                   && jobs == old(jobs)[Child(k, j) := jobs[Child(k, j)]]
    {
      hide Core, Once.Tracks, Once.Record, At, Within, Done, Shape, Sortable, SameTexts, Rank;
      ghost var m, v := Snap(st), Now(false);
      var c := Child(k, j);
      CoreShape(start, m, v, pending);
      Waiting(start, m, v, pending, c);
      PartOfStep(start, m, v, pending, k - 1, j);
      ghost var part := PartOf(v, c);
      var size, at := PartSize(s, j), s.lo + PartOffset(s, j);
      if size == 0 {
        NothingToDo(m, PartFlip(s), at, part);
      } else if Finished(s, j) {
        FillBack(st, at, size, PartFlip(s), FinishedLcp(s, j), part);
      } else {
        PendingNew(start, m, v, pending, c);
        working := working + 1;
        jobs := jobs[c := Job(at, size, PartFlip(s), PartDepth(s, j))];
        JobsMore(v.jobs, c, jobs[c]);
        CoreEnqueue(start, m, v, pending, c, jobs[c]);
        Once.TrackGive(history, levels, v.jobs, pending, c, jobs[c]);
        history := Once.Record(history, Once.Give(c));
        return;
      }
      CorePartDone(start, m, Snap(st), v, pending, c);
      Once.TrackPartDone(history, levels, jobs.Keys, pending, c);
      history := Once.Record(history, Once.PartDone(c));
      assert Now(false) == v;
    }

    /** All parts of level k from part first on. */
    method FreeParts(s: Step, k: nat, first: nat)
      requires 0 < k <= |sampleStack + mkqsStack| && s == (sampleStack + mkqsStack)[k - 1] && ValidStep(s)
      requires first <= PartCount(s) && Open(false, Pending(k, first, PartCount(s)))
      modifies this`history, this`jobs, this`working, st.orig, st.lcp
      ensures Valid(false) && working - |jobs| == old(working - |jobs|)
      ensures PartsGiven(s, k, first, PartCount(s), old(jobs), jobs)
    {
      hide Core, Once.Tracks, Once.Record, Shape, PartsGiven, Finished, PartSize, IsJobFor;
      var j := first;
      NoPartsGiven(s, k, first, jobs);
      while j < PartCount(s)
        invariant first <= j && Open(false, Pending(k, j, PartCount(s))) && working - |jobs| == old(working - |jobs|)
        invariant j <= PartCount(s) && PartsGiven(s, k, first, j, old(jobs), jobs)
      {
        PendingNext(k, j, PartCount(s));
        ghost var before := jobs;
        FreePart(s, k, j, Pending(k, j, PartCount(s)));
        MorePartsGiven(s, k, first, j, old(jobs), before, jobs);
        j := j + 1;
      }
      assert Pending(k, j, PartCount(s)) == {};
    }

    /** sample_sort_free_work(): the lowest live sample sort level is given away, or, if
        there is none, up to eight MKQS levels. */
    method SampleFreeWork()
      requires Running(false)
      modifies this`sampleStack, this`samplePop, this`mkqsPop, this`levels, this`history, this`jobs, this`working, st.orig, st.lcp
      ensures Running(false) && |sampleStack| == old(|sampleStack|) && GaveLevels(old(Now(false)), Now(false))
      ensures if old(samplePop) < |sampleStack| then samplePop == old(samplePop) + 1 && mkqsPop == old(mkqsPop)
              else sampleStack == old(sampleStack) && samplePop == old(samplePop) && mkqsPop == EightMore(old(mkqsPop), |mkqsStack|)
      ensures SamplePotential() <= old(SamplePotential()) && MkqsPotential() <= old(MkqsPotential())
    {
      hide Core, Once.Tracks, Once.Record, Shape, StackPotential, GaveLevels;
      LiveShape();
      if |sampleStack| == samplePop {
        MkqsFreeWork();
        return;
      }
      SampleFreeLevel();
    }

    method SampleFreeLevel()
      requires Running(false) && |sampleStack| != samplePop
      modifies this`sampleStack, this`samplePop, this`levels, this`history, this`jobs, this`working, st.orig, st.lcp
      ensures Running(false) && |sampleStack| == old(|sampleStack|) && samplePop == old(samplePop) + 1 && GaveLevels(old(Now(false)), Now(false))
      ensures SamplePotential() <= old(SamplePotential()) && MkqsPotential() == old(MkqsPotential())
    {
      hide Core, Once.Tracks, Once.Record, Shape, StackPotential, GaveLevels, PartsGiven;
      LiveShape();
      ghost var v, stack := Now(false), sampleStack;
      var k := samplePop;
      var s := sampleStack[k];
      LevelGiven(start, Snap(st), v, history, PartCount(s));
      sampleStack, samplePop := sampleStack[k := s.(idx := PartCount(s))], k + 1;
      levels, history := Free(levels, k + 1), Once.Record(history, Once.FreeLevel(v.pop + 1));
      FreedSteps(stack, mkqsStack, k, PartCount(s));
      assert Now(false) == Freed(v, PartCount(s));
      SampleShape(stack, k, mkqsStack, mkqsPop, numsplitters, PartCount(s), task.limit, task.size);
      FreeParts(sampleStack[k], k + 1, s.idx);
      GaveOne(v, Now(false), sampleStack[k]);
    }

    /** mkqs_free_work(): up to eight levels at a time. */
    method MkqsFreeWork()
      requires Running(false) && |sampleStack| == samplePop
      modifies this`mkqsPop, this`levels, this`history, this`jobs, this`working, st.orig, st.lcp
      ensures Running(false) && mkqsPop == EightMore(old(mkqsPop), |mkqsStack|) && GaveLevels(old(Now(false)), Now(false))
      ensures MkqsPotential() <= old(MkqsPotential())
    {
      hide Core, Once.Tracks, Once.Record, Shape, StackPotential, GaveLevels;
      LiveShape();
      NothingGiven(Now(false));
      var fl := 0;
      while fl < 8
        invariant fl <= 8 && Running(false) && mkqsPop == old(mkqsPop) + fl <= |mkqsStack| && GaveLevels(old(Now(false)), Now(false))
        invariant MkqsPotential() <= old(MkqsPotential())
      {
        if |mkqsStack| == mkqsPop { return; }
        ghost var v := Now(false);
        MkqsFreeLevel();
        GaveTwice(old(Now(false)), v, Now(false));
        fl := fl + 1;
      }
    }

    method MkqsFreeLevel()
      requires Running(false) && |sampleStack| == samplePop && mkqsPop < |mkqsStack|
      modifies this`mkqsPop, this`levels, this`history, this`jobs, this`working, st.orig, st.lcp
      ensures Running(false) && mkqsPop == old(mkqsPop) + 1 && GaveLevels(old(Now(false)), Now(false))
      ensures MkqsPotential() <= old(MkqsPotential())
    {
      hide Core, Once.Tracks, Once.Record, Shape, StackPotential, GaveLevels, PartsGiven;
      LiveShape();
      ghost var v := Now(false);
      var k := mkqsPop;
      var s := mkqsStack[k];
      assert v.steps[samplePop + k] == s;
      LevelGiven(start, Snap(st), v, history, s.idx);
      mkqsPop := k + 1;
      levels, history := Free(levels, samplePop + k + 1), Once.Record(history, Once.FreeLevel(v.pop + 1));
      assert Now(false) == Freed(v, s.idx);
      MkqsShape(sampleStack, samplePop, mkqsStack, k, numsplitters, task.limit, task.size);
      FreeParts(s, samplePop + k + 1, s.idx);
      GaveOne(v, Now(false), s);
    }

    /** has_idle() is asked; if some thread is idle, work is given away. */
    method AnswerIdle(ghost slack: nat)
      requires Running(false) && Shared(slack)
      modifies this`sampleStack, this`samplePop, this`mkqsPop, this`levels, this`history, this`jobs, this`working, this`asked, st.orig, st.lcp
      ensures Running(false) && |sampleStack| == old(|sampleStack|) && asked == old(asked) + 1 && Shared(slack + 1)
      ensures old(IdleTimes()) <= IdleTimes() <= old(IdleTimes()) + 1
      ensures if !ctx.hasIdle(Job(lo, n, flip, depth), old(asked)) then sampleStack == old(sampleStack) && samplePop == old(samplePop) && mkqsPop == old(mkqsPop)
              else if old(samplePop) < |sampleStack| then samplePop == old(samplePop) + 1 && mkqsPop == old(mkqsPop)
              else sampleStack == old(sampleStack) && samplePop == old(samplePop) && mkqsPop == EightMore(old(mkqsPop), |mkqsStack|)
      ensures GaveLevels(old(Now(false)), Now(false))
      ensures SamplePotential() <= old(SamplePotential()) && MkqsPotential() <= old(MkqsPotential())
    {
      hide Core, Once.Tracks, Once.Record, Shape, StackPotential, GaveLevels;
      LiveShape();
      NothingGiven(Now(false));
      var hasIdle := ctx.hasIdle(Job(lo, n, flip, depth), asked);
      asked := asked + 1;
      assert Now(false) == old(Now(false));
      if hasIdle {
        SampleFreeWork();
      }
      assert IdleTimes() == old(IdleTimes()) + if hasIdle then 1 else 0;
    }

    /** Between two rounds: work is given away if some thread is idle, and other
        threads run any of the jobs. */
    method Interlude(ghost slack: nat) returns (ghost queued: map<Child, Job>)
      requires Running(false) && Shared(slack)
      modifies this`sampleStack, this`samplePop, this`mkqsPop, this`levels, this`history, this`jobs, this`working, this`done, this`asked
      modifies st.orig, st.shadow, st.lcp
      ensures Running(false) && |sampleStack| == old(|sampleStack|) && asked == old(asked) + 1 && Shared(slack + 1)
      ensures old(IdleTimes()) <= IdleTimes() <= old(IdleTimes()) + 1
      ensures if !ctx.hasIdle(Job(lo, n, flip, depth), old(asked)) then sampleStack == old(sampleStack) && samplePop == old(samplePop) && mkqsPop == old(mkqsPop)
              else if old(samplePop) < |sampleStack| then samplePop == old(samplePop) + 1 && mkqsPop == old(mkqsPop)
              else sampleStack == old(sampleStack) && samplePop == old(samplePop) && mkqsPop == EightMore(old(mkqsPop), |mkqsStack|)
      ensures GaveLevels(old(Now(false)), Now(false).(jobs := queued)) && jobs == Without(queued, ctx.others(Job(lo, n, flip, depth), old(asked))) && SameParts(old(levels), levels)
      ensures SamplePotential() <= old(SamplePotential()) && MkqsPotential() <= old(MkqsPotential())
      decreases TaskRank(task), 3
    {
      hide Core, Once.Tracks, Once.Record, Shape, StackPotential, GaveLevels, SameParts, Balanced, IdleTimes, EightMore, Without;
      AnswerIdle(slack);
      queued := jobs;
      ghost var v := Now(false);
      GaveSame(old(Now(false)), v);
      RunJobs(ctx.others(Job(lo, n, flip, depth), asked - 1));
      assert Now(false).(jobs := queued) == v;
    }

    /** Another thread runs a job and reports to this one. */
    method RunAndNotify(c: Child)
      requires Running(false) && c in jobs
      modifies this`history, this`jobs, this`working, this`done, this`samplePop, this`mkqsPop, st.orig, st.shadow, st.lcp
      ensures Running(false) && samplePop == old(samplePop) && mkqsPop == old(mkqsPop) && jobs == old(jobs) - {c}
      decreases TaskRank(task), 1
    {
      hide Core, Once.Tracks, Once.Record, Shape;
      RunOneJob(c);
      NotifyDone();
    }

    /** Other threads run these of the jobs, in this order. */
    method RunJobs(order: seq<Child>)
      requires Running(false)
      modifies this`history, this`jobs, this`working, this`done, this`samplePop, this`mkqsPop, st.orig, st.shadow, st.lcp
      ensures Running(false) && samplePop == old(samplePop) && mkqsPop == old(mkqsPop) && jobs == Without(old(jobs), order)
      decreases TaskRank(task), 2
    {
      hide Running, Without;
      var i := 0;
      WithoutNone(jobs);
      while i < |order|
        invariant 0 <= i <= |order| && Running(false) && samplePop == old(samplePop) && mkqsPop == old(mkqsPop)
        invariant jobs == Without(old(jobs), order[..i])
      {
        WithoutOne(old(jobs), order, i);
        if order[i] in jobs {
          RunAndNotify(order[i]);
        }
        i := i + 1;
      }
      assert order[..i] == order;
    }

    /** Another thread runs one of the child jobs, with all their own children. */
    method RunOneJob(c: Child)
      requires Valid(false) && c in jobs
      modifies this`history, this`jobs, st.orig, st.shadow, st.lcp
      ensures Valid(false) && |jobs| == old(|jobs|) - 1 && jobs == old(jobs) - {c}
      decreases TaskRank(task), 0
    {
      hide Core, Once.Tracks, Once.Record, At, Within, Done, Sortable, Shape, Rank;
      ghost var m, v := Snap(st), Now(false);
      var job := jobs[c];
      JobReady(start, m, v, {}, c);
      SortableParts(task, PartOf(v, c), job.depth);
      var _, _ := Enqueue(st, ctx, job, PartOf(v, c), task.limit, task.size);
      CoreJobDone(start, m, Snap(st), v, {}, c);
      Once.TrackJobDone(history, levels, v.jobs, {}, c);
      history := Once.Record(history, Once.JobDone(c));
      jobs := jobs - {c};
      OneFewer(old(jobs), c);
      assert Now(false) == v.(jobs := v.jobs - {c});
    }

    /** substep_notify_done() */
    method NotifyDone()
      requires working > 0 && !done && Valid(false)
      requires working == 1 ==> jobs == map[] && Settled() && levels[0].next == 1
      modifies this`history, this`working, this`done, this`samplePop, this`mkqsPop, st.lcp
      ensures working == old(working) - 1
      ensures if working == 0 then Complete() else Valid(false) && !done && samplePop == old(samplePop) && mkqsPop == old(mkqsPop)
    {
      hide Core, Once.AllOnce, Once.Tracks, Once.Record, Shape, Done, Within;
      working := working - 1;
      if working == 0 {
        SubstepAllDone();
      } else {
        assert Now(false) == old(Now(false));
      }
    }

    /** substep_all_done(): LCPs of all levels that were given away, top down. */
    method SubstepAllDone()
      requires Valid(false) && jobs == map[] && Settled() && !done && levels[0].next == 1
      modifies this`history, this`done, this`samplePop, this`mkqsPop, st.lcp
      ensures Complete()
    {
      hide Core, Once.AllOnce, Once.Tracks, Once.Record, Done, Within;
      ghost var v := Now(false);
      ghost var steps := sampleStack + mkqsStack;
      CoreShape(start, Snap(st), v, {});
      assert steps[..samplePop + mkqsPop] == steps;
      while mkqsPop > 0
        invariant mkqsPop <= |mkqsStack| && samplePop == |sampleStack|
        invariant v == View(task, steps[..samplePop + mkqsPop], levels[..samplePop + mkqsPop + 1], map[], samplePop + mkqsPop, false)
        invariant Core(start, Snap(st), v, {}) && Once.Tracks(history, v.levels, v.jobs.Keys, {})
      {
        mkqsPop := mkqsPop - 1;
        assert mkqsStack[mkqsPop] == v.steps[samplePop + mkqsPop];
        v, history := LeaveFreed(st, mkqsStack[mkqsPop], start, v, history);
      }
      while samplePop > 0
        invariant samplePop <= |sampleStack| && mkqsPop == 0
        invariant v == View(task, steps[..samplePop], levels[..samplePop + 1], map[], samplePop, false)
        invariant Core(start, Snap(st), v, {}) && Once.Tracks(history, v.levels, v.jobs.Keys, {})
      {
        samplePop := samplePop - 1;
        assert sampleStack[samplePop] == v.steps[samplePop];
        v, history := LeaveFreed(st, sampleStack[samplePop], start, v, history);
      }
      CoreEmpty(start, Snap(st), v);
      Once.TrackEnd(history, v.levels, v.jobs);
      done := true;
    }

    // ------------------------------------------------------------- MKQS

    ghost predicate CleanNow()
      reads this, cache
    {
      st.orig.Length <= cache.Length && CleanStack(cache[..], sampleStack + mkqsStack, levels, |sampleStack|)
    }

    /** The top step of the MKQS stack `before` was told to start part j. */
    ghost predicate MkqsStarted(s: Step, j: nat, before: seq<Step>)
      reads this, st.orig, st.shadow, st.lcp, cache
    {
      && Running(true) && CleanNow() && before != [] && mkqsPop < |before| && mkqsStack == Bumped(before)
      && s == mkqsStack[|mkqsStack| - 1] && s.idx == j + 1
    }

    /** A part that needs no step: empty, of one text, or small. */
    method MkqsSortPart(s: Step, j: nat, ghost before: seq<Step>)
      requires ValidStep(s) && s.MkqsStep? && MkqsStarted(s, j, before) && j < 3
      requires PartSize(s, j) == 0 || Finished(s, j) || PartSize(s, j) < G_INSSORT_THRESHOLD
      requires Shape(sampleStack, samplePop, before, mkqsPop, numsplitters)
      modifies this`levels, this`history, st.orig, st.shadow, st.lcp, cache
      ensures Running(false) && CleanNow() && levels[0].next == old(levels[0].next)
      ensures MkqsPotential() < StackPotential(before, mkqsPop, task.limit, task.size, 2 * numsplitters + 2)
    {
      hide Shape, Core, Once.Tracks, Once.Record, Fits, At, Done, Within, SameTexts, Sortable, Rank, StackPotential, CleanStack, CleanPart, KeptKeys, SharePrefix;
      ghost var v, m, keys := Now(true), Snap(st), cache[..];
      ShapeBounds(sampleStack, samplePop, mkqsStack, mkqsPop, numsplitters);
      TopOfStack(start, m, v);
      ghost var part := TopPart(levels);
      var size, at := PartSize(s, j), s.lo + PartOffset(s, j);
      CleanTop(cache, v, |sampleStack|);
      SortSmallPart(st, cache, s, j, at, size, task, part);
      PartOnSpot(start, m, Snap(st), v, history);
      CleanStarted(start, m, v, keys, cache, |sampleStack|);
      MkqsStartShape(sampleStack, samplePop, before, Top(levels).parts, mkqsPop, numsplitters, task);
      levels, history := Advance(levels), Once.Record(history, Once.OnSpot);
    }

    /** A large part gets a step of its own. */
    method MkqsPushPart(s: Step, j: nat, ghost before: seq<Step>)
      requires ValidStep(s) && s.MkqsStep? && MkqsStarted(s, j, before) && j < 3
      requires PartSize(s, j) >= G_INSSORT_THRESHOLD && !Finished(s, j)
      requires Shape(sampleStack, samplePop, before, mkqsPop, numsplitters)
      modifies this`levels, this`history, this`mkqsStack, st.orig, st.shadow, cache
      ensures Running(false) && CleanNow() && levels[0].next == old(levels[0].next)
      ensures MkqsPotential() < StackPotential(before, mkqsPop, task.limit, task.size, 2 * numsplitters + 2)
    {
      hide Shape, Core, Once.Tracks, Once.Record, Fits, At, Within, Sortable, Rank, StackPotential, CleanStack, CleanPart, KeptKeys, CleanParts, Concat, CleanLevel, PartsAt, SharePrefix;
      ghost var v, m, keys := Now(true), Snap(st), cache[..];
      ShapeBounds(sampleStack, samplePop, mkqsStack, mkqsPop, numsplitters);
      TopOfStack(start, m, v);
      ghost var part, base := TopPart(levels), |sampleStack|;
      var size, at := PartSize(s, j), s.lo + PartOffset(s, j);
      SortableParts(task, part, PartDepth(s, j));
      CleanTop(cache, v, base);
      SnapLengths(st);
      var child;
      ghost var parts;
      child, parts := MakeMkqsStep(st, cache, at, size, PartFlip(s), PartDepth(s, j), j == 1, part);
      PartPushed(start, m, Snap(st), v, history, child, parts, PartDepth(s, j));
      CleanStarted(start, m, v, keys, cache, base);
      CleanNew(cache, child, parts);
      CleanPush(cache[..], v.steps, Advance(levels), base, child, NewLevel(child, parts));
      MkqsPushShape(sampleStack, samplePop, before, Top(levels).parts, mkqsPop, child, parts, numsplitters, task);
      mkqsStack := mkqsStack + [child];
      levels, history := Advance(levels) + [NewLevel(child, parts)], Once.Record(history, Once.Push(NewLevel(child, parts)));
      assert Now(false) == v.(steps := v.steps + [child], levels := levels, started := false);
    }

    /** All three parts of the top step were started. */
    method MkqsLeave(s: Step, ghost before: seq<Step>)
      requires MkqsStarted(s, 3, before) && Shape(sampleStack, samplePop, before, mkqsPop, numsplitters)
      modifies this`levels, this`history, this`mkqsStack, st.lcp
      ensures Running(false) && CleanNow() && levels[0].next == old(levels[0].next)
      ensures MkqsPotential() < StackPotential(before, mkqsPop, task.limit, task.size, 2 * numsplitters + 2)
    {
      hide Core, Once.Tracks, Once.Record, Fits, Within, Rank, StackPotential, CleanStack, PartsDone, BoundariesExact;
      ghost var v, m := Now(true), Snap(st);
      var top := |mkqsStack| - 1;
      TopStarted(start, m, v);
      TopDone(start, m, v);
      CalculateLcp(st, s, Top(levels).parts);
      LevelLeft(start, m, Snap(st), v, history);
      CleanPop(cache[..], v.steps, levels, |sampleStack|);
      PopLowers(before, mkqsPop, task.limit, task.size, 2 * numsplitters + 2);
      mkqsStack := mkqsStack[..top];
      levels, history := levels[..|levels| - 1], Once.Record(history, Once.Leave);
      assert before[..top] == mkqsStack;
      assert sampleStack + mkqsStack == v.steps[..|v.steps| - 1];
    }

    /** One round of the loop in sort_mkqs_cache(). */
    method MkqsRound()
      requires Running(false) && CleanNow() && mkqsPop < |mkqsStack|
      modifies this`rounds, this`mkqsStack, this`levels, this`history, st.orig, st.shadow, st.lcp, cache
      ensures Running(false) && CleanNow() && MkqsPotential() < old(MkqsPotential())
      ensures rounds == old(rounds) + 1 && levels[0].next == old(levels[0].next)
    {
      hide Core, Once.Tracks, Once.Record, CleanStack, StackPotential;
      rounds := rounds + 1;
      ghost var v, before := Now(false), mkqsStack;
      var top := |mkqsStack| - 1;
      CoreStarted(start, Snap(st), v);
      LiveIdx(start, Snap(st), v);
      assert v.steps[|v.steps| - 1] == mkqsStack[top];
      mkqsStack := Bumped(mkqsStack); // ++ms.idx
      assert sampleStack + mkqsStack == WithIdx(v.steps, |v.steps| - 1, v.steps[|v.steps| - 1].idx + 1);
      CleanFreed(cache[..], v.steps, sampleStack + mkqsStack, levels, levels, |sampleStack|);
      BumpedShape(sampleStack, samplePop, before, mkqsPop, numsplitters);
      var s := mkqsStack[top];
      if s.idx == 4 {
        MkqsLeave(s, before);
      } else if PartSize(s, s.idx - 1) == 0 || Finished(s, s.idx - 1) || PartSize(s, s.idx - 1) < G_INSSORT_THRESHOLD {
        MkqsSortPart(s, s.idx - 1, before);
      } else {
        MkqsPushPart(s, s.idx - 1, before);
      }
    }

    /** The area (at, size) is the next part of the top level. */
    ghost predicate AtArea(at: nat, size: nat, fl: bool, d: nat, s: seq<Str>)
      reads this
    {
      var v := Now(sampleStack != []);
      && AtPart(v) && TopPart(levels) == s && TopStart(levels) == at && |s| == size && Top(levels).flip == fl
      && Sortable(task, s, d) && Rank(task.limit, task.size, d, size) <= TaskRank(task)
      && levels[0].next == if sampleStack == [] then 0 else 1
    }

    /** sort_mkqs_cache(). The asserts of the source on the MKQS stack at entry are
        the precondition. */
    method SortMkqsCache(at: nat, size: nat, fl: bool, d: nat, ghost s: seq<Str>)
      requires Running(sampleStack != []) && mkqsPop == 0 && mkqsStack == [] && AtArea(at, size, fl, d, s) && Balanced()
      modifies this`asked, this`rounds, this`cache, this`sampleStack, this`samplePop, this`mkqsStack, this`mkqsPop
      modifies this`levels, this`history, this`jobs, this`working, this`done, st.orig, st.shadow, st.lcp, cache
      ensures Running(false) && |sampleStack| == old(|sampleStack|) && |mkqsStack| == mkqsPop && levels[0].next == 1
      ensures Shared(1) && rounds - asked == old(rounds - asked) && rounds >= old(rounds) && (size >= G_INSSORT_THRESHOLD ==> rounds > old(rounds))
      ensures SamplePotential() <= old(SamplePotential())
      ensures cache == old(cache) || fresh(cache)
      decreases TaskRank(task), 6
    {
      hide Balanced, IdleTimes, Core, Once.Tracks, Once.Record, At, Within, Done, Sortable, Rank, CleanStack, StackPotential, Shape;
      ghost var v, m := Now(sampleStack != []), Snap(st);
      if size < G_INSSORT_THRESHOLD {
        TopLive(start, m, v);
        SortableParts(task, s, d);
        InsertionSortBack(st, at, size, fl, d, s);
        PartOnSpot(start, m, Snap(st), v, history);
        levels, history := Advance(levels), Once.Record(history, Once.OnSpot);
        return;
      }
      FirstMkqsStep(at, size, fl, d, s);
      MkqsLoop();
    }

    /** Sort until the stack is empty or given away. */
    method MkqsLoop()
      requires Running(false) && CleanNow() && levels[0].next == 1 && Balanced()
      modifies this`asked, this`rounds, this`sampleStack, this`samplePop, this`mkqsStack, this`mkqsPop
      modifies this`levels, this`history, this`jobs, this`working, this`done, st.orig, st.shadow, st.lcp, cache
      ensures Running(false) && |sampleStack| == old(|sampleStack|) && |mkqsStack| == mkqsPop && levels[0].next == 1
      ensures Shared(1) && rounds - asked == old(rounds - asked) && rounds >= old(rounds) && (old(|mkqsStack| > mkqsPop) ==> rounds > old(rounds))
      ensures SamplePotential() <= old(SamplePotential())
      decreases TaskRank(task), 5
    {
      hide Balanced, IdleTimes, Core, Once.Tracks, Once.Record, CleanStack, StackPotential;
      while |mkqsStack| > mkqsPop
        invariant Running(false) && CleanNow() && |sampleStack| == old(|sampleStack|) && levels[0].next == 1
        invariant Shared(1) && rounds - asked == old(rounds - asked) && rounds >= old(rounds)
        invariant old(|mkqsStack| > mkqsPop) && rounds == old(rounds) ==> |mkqsStack| > mkqsPop
        invariant SamplePotential() <= old(SamplePotential())
        decreases MkqsPotential()
      {
        assert Balanced();
        MkqsRound();
        MkqsInterlude();
      }
    }

    /** The same between two rounds of this loop. */
    method MkqsInterlude()
      requires Running(false) && CleanNow() && Balanced()
      modifies this`sampleStack, this`samplePop, this`mkqsPop, this`levels, this`history, this`jobs, this`working, this`done, this`asked
      modifies st.orig, st.shadow, st.lcp
      ensures Running(false) && CleanNow() && |sampleStack| == old(|sampleStack|) && asked == old(asked) + 1 && Shared(1)
      ensures levels[0].next == old(levels[0].next)
      ensures SamplePotential() <= old(SamplePotential()) && MkqsPotential() <= old(MkqsPotential())
      decreases TaskRank(task), 4
    {
      hide Core, Once.Tracks, Once.Record, Shape, StackPotential, GaveLevels, Balanced, IdleTimes, EightMore, Without, CleanStack;
      ghost var steps, before, keys := sampleStack + mkqsStack, levels, cache[..];
      ghost var queued := Interlude(0);
      CleanFreed(keys, steps, sampleStack + mkqsStack, before, levels, |sampleStack|);
    }

    /** A large enough key cache. */
    method GrowCache(ghost started: bool)
      requires Running(started)
      modifies this`cache
      ensures Running(started) && cache.Length >= st.orig.Length && (cache == old(cache) || fresh(cache))
    {
      hide Core, Once.Tracks, Once.Record, Shape;
      if cache.Length < st.orig.Length {
        cache := new nat[st.orig.Length];
      }
    }

    lemma FirstArea(v: View, m: Mem, d: nat, s: seq<Str>)
      requires v == Now(sampleStack != []) && m == Snap(st) && Running(sampleStack != []) && mkqsStack == []
      requires AtPart(v) && TopPart(levels) == s && Sortable(task, s, d)
      ensures At(Side(m, Top(levels).flip), TopStart(levels), s) && SharePrefix(s, d) && TopStart(levels) + |s| <= st.orig.Length
      ensures Top(levels).next < |Top(levels).parts| && |levels| == |sampleStack| + 1
      ensures |st.orig[..]| == st.orig.Length
    {
      hide Core, Once.Tracks, Once.Record, At, SharePrefix, Sortable, Shape;
      TopLive(start, m, v);
      SortableParts(task, s, d);
      SnapLengths(st);
    }

    /** The first step of sort_mkqs_cache(), with a large enough key cache. */
    method FirstMkqsStep(at: nat, size: nat, fl: bool, d: nat, ghost s: seq<Str>)
      requires Running(sampleStack != []) && mkqsPop == 0 && mkqsStack == [] && AtArea(at, size, fl, d, s)
      requires G_INSSORT_THRESHOLD <= size
      modifies this`cache, this`mkqsStack, this`levels, this`history, st.orig, st.shadow, cache
      ensures Running(false) && CleanNow() && levels[0].next == 1 && |mkqsStack| == 1
      ensures cache == old(cache) || fresh(cache)
    {
      hide Core, Once.Tracks, Once.Record, At, Within, Done, Rank, CleanLevel, CleanStack, StackPotential, Concat, Sortable, Fits, CleanParts, SharePrefix, PartsAt, Shape, Made;
      ghost var v, m := Now(sampleStack != []), Snap(st);
      assert v.steps == sampleStack;
      FirstArea(v, m, d, s);
      GrowCache(sampleStack != []);
      var step;
      ghost var parts;
      step, parts := MakeMkqsStep(st, cache, at, size, fl, d, true, s);
      MadeFields(Snap(st), step, parts, at, size, fl, d, s);
      CleanNew(cache, step, parts);
      FirstPush(start, m, Snap(st), v, history, cache[..], step, parts, d);
      FirstShape(sampleStack, samplePop, step, numsplitters);
      mkqsStack := [step];
      levels, history := Advance(levels) + [NewLevel(step, parts)], Once.Record(history, Once.Push(NewLevel(step, parts)));
      assert Now(false) == v.(steps := v.steps + [step], levels := levels, started := false);
    }

    // ------------------------------------------------------ sample sort

    /** The top step of the sample sort stack `before` was told to start part i. */
    ghost predicate SampleStarted(s: Step, i: nat, before: seq<Step>)
      reads this, st.orig, st.shadow, st.lcp
    {
      && Running(true) && before != [] && samplePop < |before| && sampleStack == Bumped(before)
      && mkqsStack == [] && mkqsPop == 0 && levels[0].next == 1
      && Shape(before, samplePop, mkqsStack, mkqsPop, numsplitters)
      && s == sampleStack[|sampleStack| - 1] && s.idx == i + 1
    }

    lemma StillNoneIdle()
      requires Running(false) && Shared(1) && sampleStack != []
      ensures NoneIdle()
    {
      hide Core, Once.Tracks, IdleTimes;
    }

    /** A part that needs no sample sort step. */
    method SampleSortPart(s: Step, i: nat, ghost before: seq<Step>)
      requires SampleStarted(s, i, before) && i < PartCount(s)
      requires PartSize(s, i) == 0 || Finished(s, i) || PartSize(s, i) < G_SMALLSORT_THRESHOLD
      requires Balanced() && NoneIdle()
      modifies this`asked, this`rounds, this`cache, this`sampleStack, this`samplePop, this`mkqsStack, this`mkqsPop
      modifies this`levels, this`history, this`jobs, this`working, this`done, st.orig, st.shadow, st.lcp, cache
      ensures Running(false) && |mkqsStack| == mkqsPop && levels[0].next == 1
      ensures NoneIdle() && Shared(1) && rounds >= old(rounds) && rounds - asked == old(rounds - asked)
      ensures SamplePotential() < StackPotential(before, old(samplePop), task.limit, task.size, 2 * numsplitters + 2)
      ensures cache == old(cache) || fresh(cache)
      decreases TaskRank(task), 7
    {
      hide NoneIdle, Balanced, IdleTimes, Core, Once.Tracks, Once.Record, Fits, At, Done, Within, SameTexts, Sortable, Rank, StackPotential, SharePrefix;
      ghost var v, m := Now(true), Snap(st);
      assert v.steps == sampleStack;
      TopOfStack(start, m, v);
      StartLowers(before, Top(levels).parts, samplePop, task.limit, task.size, 2 * numsplitters + 2);
      ghost var part := TopPart(levels);
      var size, at := PartSize(s, i), s.lo + PartOffset(s, i);
      if size != 0 && !Finished(s, i) {
        SortMkqsCache(at, size, PartFlip(s), PartDepth(s, i), part);
        StillNoneIdle();
        return;
      }
      if size == 0 {
        NothingToDo(m, PartFlip(s), at, part);
      } else {
        FillBack(st, at, size, PartFlip(s), FinishedLcp(s, i), part);
      }
      PartOnSpot(start, m, Snap(st), v, history);
      AdvanceBottom(levels);
      levels, history := Advance(levels), Once.Record(history, Once.OnSpot);
    }

    /** A large part gets a sample sort step of its own. */
    method SamplePushPart(s: Step, i: nat, ghost before: seq<Step>)
      requires ValidStep(s) && SampleStarted(s, i, before) && i < PartCount(s)
      requires PartSize(s, i) >= G_SMALLSORT_THRESHOLD && !Finished(s, i)
      modifies this`sampleStack, this`levels, this`history, st.orig, st.shadow
      ensures Running(false) && |mkqsStack| == mkqsPop && levels[0].next == 1
      ensures SamplePotential() < StackPotential(before, samplePop, task.limit, task.size, 2 * numsplitters + 2)
    {
      hide Shape, Core, Once.Tracks, Once.Record, Fits, At, Within, Sortable, Rank, StackPotential, Concat, PartsAt, SharePrefix;
      ghost var v, m := Now(true), Snap(st);
      assert v.steps == sampleStack;
      TopOfStack(start, m, v);
      ghost var part := TopPart(levels);
      var size, at := PartSize(s, i), s.lo + PartOffset(s, i);
      SortableParts(task, part, PartDepth(s, i));
      var child;
      ghost var parts;
      child, parts := MakeSampleStep(st, at, size, PartFlip(s), PartDepth(s, i), ctx.treebits, 1, part);
      PartPushed(start, m, Snap(st), v, history, child, parts, PartDepth(s, i));
      SamplePushShape(before, Top(levels).parts, samplePop, child, parts, numsplitters, task);
      sampleStack := sampleStack + [child];
      levels, history := Advance(levels) + [NewLevel(child, parts)], Once.Record(history, Once.Push(NewLevel(child, parts)));
      assert Now(false) == v.(steps := v.steps + [child], levels := levels, started := false);
    }

    /** All buckets of the top step were started. */
    method SampleLeave(s: Step, ghost before: seq<Step>)
      requires ValidStep(s) && SampleStarted(s, PartCount(s), before)
      modifies this`sampleStack, this`levels, this`history, st.lcp
      ensures Running(false) && |mkqsStack| == mkqsPop && levels[0].next == 1
      ensures SamplePotential() < StackPotential(before, samplePop, task.limit, task.size, 2 * numsplitters + 2)
    {
      hide Core, Once.Tracks, Once.Record, Fits, Within, Rank, StackPotential, PartsDone, BoundariesExact;
      ghost var v, m := Now(true), Snap(st);
      var top := |sampleStack| - 1;
      assert v.steps == sampleStack;
      TopStarted(start, m, v);
      TopDone(start, m, v);
      CalculateLcp(st, s, Top(levels).parts);
      LevelLeft(start, m, Snap(st), v, history);
      PopLowers(before, samplePop, task.limit, task.size, 2 * numsplitters + 2);
      sampleStack := sampleStack[..top];
      levels, history := levels[..|levels| - 1], Once.Record(history, Once.Leave);
      assert before[..top] == sampleStack;
      assert sampleStack + mkqsStack == v.steps[..|v.steps| - 1];
    }

    /** s.idx++ of the top step. */
    method StartPart() returns (s: Step, ghost before: seq<Step>)
      requires Running(false) && |mkqsStack| == mkqsPop && samplePop < |sampleStack| && levels[0].next == 1
      modifies this`sampleStack
      ensures before == old(sampleStack) && s.idx > 0 && ValidStep(s) && s.idx - 1 <= PartCount(s) && SampleStarted(s, s.idx - 1, before)
    {
      hide Core, Once.Tracks, Once.Record, StackPotential;
      ghost var v := Now(false);
      before := sampleStack;
      assert v.steps == sampleStack;
      CoreStarted(start, Snap(st), v);
      LiveIdx(start, Snap(st), v);
      sampleStack := Bumped(sampleStack);
      assert sampleStack + mkqsStack == WithIdx(v.steps, |v.steps| - 1, v.steps[|v.steps| - 1].idx + 1);
      BumpedSampleShape(before, samplePop, mkqsStack, mkqsPop, numsplitters);
      s := sampleStack[|sampleStack| - 1];
    }

    /** One round of the loop in sort_sample_sort(). */
    method SampleRound()
      requires Running(false) && |mkqsStack| == mkqsPop && samplePop < |sampleStack| && levels[0].next == 1
      requires Balanced()
      modifies this`asked, this`rounds, this`cache, this`sampleStack, this`samplePop, this`mkqsStack, this`mkqsPop
      modifies this`levels, this`history, this`jobs, this`working, this`done, st.orig, st.shadow, st.lcp, cache
      ensures Running(false) && |mkqsStack| == mkqsPop && levels[0].next == 1
      ensures NoneIdle() && Shared(1) && rounds > old(rounds) && rounds - asked == old(rounds - asked) + 1
      ensures SamplePotential() < old(SamplePotential())
      ensures cache == old(cache) || fresh(cache)
      decreases TaskRank(task), 8
    {
      hide NoneIdle, Balanced, IdleTimes, Core, Once.Tracks, Once.Record, StackPotential, SampleStarted;
      SamplesFirst();
      rounds := rounds + 1;
      var s; ghost var before;
      s, before := StartPart();
      var i := s.idx - 1;
      if i == PartCount(s) {
        SampleLeave(s, before);
      } else if PartSize(s, i) == 0 || Finished(s, i) || PartSize(s, i) < G_SMALLSORT_THRESHOLD {
        SampleSortPart(s, i, before);
      } else {
        SamplePushPart(s, i, before);
      }
    }

    /** sort_sample_sort() */
    method SortSampleSort()
      requires Running(false) && sampleStack == [] && mkqsStack == [] && levels == [Level(flip, lo, [task.whole], 0, false)]
      requires n > 0 && Balanced()
      modifies this`asked, this`rounds, this`cache, this`sampleStack, this`samplePop, this`mkqsStack, this`mkqsPop
      modifies this`levels, this`history, this`jobs, this`working, this`done, st.orig, st.shadow, st.lcp, cache
      ensures Running(false) && Settled() && levels[0].next == 1
      ensures samplePop == 0 ==> IdleTimes() <= 1
      ensures Shared(2) && rounds - asked == old(rounds - asked) && rounds > old(rounds)
      decreases TaskRank(task), 10
    {
      hide GaveLevels, Without, Balanced, IdleTimes, Core, Once.Tracks, Once.Record, StackPotential;
      FirstSampleStep();
      SampleLoop();
    }

    method SampleLoop()
      requires Running(false) && |mkqsStack| == mkqsPop && levels[0].next == 1 && Balanced()
      modifies this`asked, this`rounds, this`cache, this`sampleStack, this`samplePop, this`mkqsStack, this`mkqsPop
      modifies this`levels, this`history, this`jobs, this`working, this`done, st.orig, st.shadow, st.lcp, cache
      ensures Running(false) && Settled() && levels[0].next == 1 && Shared(2)
      ensures old(|sampleStack| > samplePop) && samplePop == 0 ==> IdleTimes() <= 1
      ensures rounds - asked == old(rounds - asked) && rounds >= old(rounds) && (old(|sampleStack| > samplePop) ==> rounds > old(rounds))
      decreases TaskRank(task), 9
    {
      hide GaveLevels, Without, Balanced, IdleTimes, Core, Once.Tracks, Once.Record, StackPotential;
      while |sampleStack| > samplePop
        invariant Running(false) && |mkqsStack| == mkqsPop && levels[0].next == 1
        invariant Shared(2) && rounds - asked == old(rounds - asked) && rounds >= old(rounds)
        invariant old(|sampleStack| > samplePop) && rounds == old(rounds) ==> |sampleStack| > samplePop
        invariant rounds > old(rounds) && samplePop == 0 ==> IdleTimes() <= 1
        invariant cache == old(cache) || fresh(cache)
        decreases SamplePotential()
      {
        assert Balanced();
        SampleRound();
        SampleInterlude();
      }
    }

    /** The same between two rounds of this loop. */
    method SampleInterlude()
      requires Running(false) && |mkqsStack| == mkqsPop && Shared(1) && NoneIdle()
      modifies this`sampleStack, this`samplePop, this`mkqsPop, this`levels, this`history, this`jobs, this`working, this`done, this`asked
      modifies st.orig, st.shadow, st.lcp
      ensures Running(false) && |mkqsStack| == mkqsPop && asked == old(asked) + 1 && Shared(2)
      ensures samplePop == 0 ==> IdleTimes() <= 1
      ensures levels[0].next == old(levels[0].next) && SamplePotential() <= old(SamplePotential())
      decreases TaskRank(task), 4
    {
      hide Core, Once.Tracks, Once.Record, Shape, StackPotential, GaveLevels, Balanced, IdleTimes, Without, Shared;
      ghost var queued := Interlude(1);
    }

    method FirstSampleStep()
      requires Running(false) && sampleStack == [] && mkqsStack == [] && levels == [Level(flip, lo, [task.whole], 0, false)]
      requires n > 0
      modifies this`sampleStack, this`levels, this`history, st.orig, st.shadow
      ensures Running(false) && levels[0].next == 1 && |sampleStack| == 1
    {
      hide Core, Once.Tracks, Once.Record, Fits, At, Within, Sortable, Rank, Concat;
      ghost var v, m := Now(false), Snap(st);
      TopLive(start, m, v);
      WholeSortable(start, m, v);
      SortableParts(task, task.whole, depth);
      var step;
      ghost var parts;
      step, parts := MakeSampleStep(st, lo, n, flip, depth, ctx.treebits, 1, task.whole);
      PartPushed(start, m, Snap(st), v, history, step, parts, depth);
      FitsValid(step, parts);
      sampleStack := [step];
      levels, history := Advance(levels) + [NewLevel(step, parts)], Once.Record(history, Once.Push(NewLevel(step, parts)));
      assert sampleStack + mkqsStack == v.steps + [step];
    }

    /** run(): the wrapper of the job counts as a substep of its own. */
    method Run()
      requires Valid(false) && working == 0 && jobs == map[] && !done && sampleStack == [] && mkqsStack == []
      requires samplePop == mkqsPop == 0 && asked == rounds == 0 && levels == [Level(flip, lo, [task.whole], 0, false)]
      modifies this, st.orig, st.shadow, st.lcp, cache
      ensures if working == 0 then Complete() else Valid(false) && Settled() && working == |jobs| && !done && levels[0].next == 1
      ensures if n < G_SMALLSORT_THRESHOLD then sampleStack == [] else IdleTimes() > 1 ==> sampleStack != []
      ensures start == old(start) && asked == rounds && (n >= G_INSSORT_THRESHOLD ==> asked > 0) && (IdleTimes() == 0 ==> working == 0)
      decreases TaskRank(task), 11
    {
      hide Shared, Balanced, IdleTimes, Core, Once.AllOnce, Once.Tracks, Once.Record, Done, Within;
      NobodyAsked();
      working := working + 1;
      assert Now(false) == old(Now(false));
      if n >= G_SMALLSORT_THRESHOLD {
        SortSampleSort();
      } else {
        WholeSortable(start, Snap(st), Now(false));
        SortMkqsCache(lo, n, flip, depth, task.whole);
        MoreSlack(1, 2);
      }
      if IdleTimes() == 0 { NotShared(2); }
      LiveShape();
      assert working == 1 ==> jobs == map[];
      NotifyDone();
    }

    lemma NobodyAsked()
      requires asked == 0 && samplePop == mkqsPop == 0
      ensures Balanced()
    {
    }

    lemma MoreSlack(a: nat, b: nat)
      requires Shared(a) && a <= b
      ensures Shared(b)
    {
      hide Balanced, IdleTimes;
    }

    /** If no thread was ever idle, the job did everything itself. */
    lemma NotShared(slack: nat)
      requires Valid(false) && Shared(slack) && IdleTimes() == 0
      ensures samplePop == mkqsPop == 0 && jobs == map[]
    {
      hide Core, Once.Tracks, IdleTimes;
      NoJobs(start, Snap(st), Now(false));
    }

    /** The child jobs that are left run in any order. */
    method Drain()
      requires if working == 0 then Complete() else Valid(false) && Settled() && working == |jobs| && !done && levels[0].next == 1
      modifies this`history, this`jobs, this`working, this`done, this`samplePop, this`mkqsPop, st.orig, st.shadow, st.lcp
      ensures Complete()
      decreases TaskRank(task), 1
    {
      hide Core, Once.AllOnce, Once.Tracks, Once.Record, Done, Within;
      while working > 0
        invariant if working == 0 then Complete() else Valid(false) && Settled() && working == |jobs| && !done && levels[0].next == 1
      {
        var c :| c in jobs;
        RunOneJob(c);
        assert working == 1 ==> jobs == map[];
        NotifyDone();
      }
    }
  }

  /** Only parts of freed levels become jobs. */
  lemma JobFreed(m0: Mem, m: Mem, v: View, c: Child)
    requires Core(m0, m, v, {}) && c in v.jobs
    ensures c.level <= v.pop
  {
    hide Within, PartOk, Nested, RankedStep, JobMatches, Fits;
    assert c in v.jobs.Keys + {};
    assert Describes(v.steps[c.level - 1], v.levels[c.level], c.level - 1 < v.pop, v.started && c.level - 1 == |v.steps| - 1);
  }

  lemma NoJobs(m0: Mem, m: Mem, v: View)
    requires Core(m0, m, v, {}) && v.pop == 0
    ensures v.jobs == map[]
  {
    hide Core;
    if v.jobs != map[] {
      var c :| c in v.jobs;
      JobFreed(m0, m, v, c);
      JobNotBottom(m0, m, v, c);
      assert false;
    }
  }

  lemma JobNotBottom(m0: Mem, m: Mem, v: View, c: Child)
    requires Core(m0, m, v, {}) && c in v.jobs
    ensures 0 < c.level
  {
    hide Within, Chain, RankedStep, JobMatches, Fits;
  }

  lemma WholeSortable(m0: Mem, m: Mem, v: View)
    requires Core(m0, m, v, {}) && v.levels == [Level(v.task.flip, v.task.lo, [v.task.whole], 0, false)]
    ensures Sortable(v.task, v.task.whole, v.task.depth)
    ensures TopPart(v.levels) == v.task.whole && TopStart(v.levels) == v.task.lo
  {
    WholeOffset(v.task.whole);
  }

  lemma AdvanceBottom(levels: seq<Level>)
    requires |levels| > 1
    ensures Advance(levels)[0] == levels[0]
  {
  }

  lemma BumpedSampleShape(samples: seq<Step>, samplePop: nat, mkqs: seq<Step>, mkqsPop: nat, numsplitters: nat)
    requires Shape(samples, samplePop, mkqs, mkqsPop, numsplitters) && samples != []
    ensures Shape(Bumped(samples), samplePop, mkqs, mkqsPop, numsplitters)
  {
    forall s | s in Bumped(samples) ensures s.SampleStep? && ValidStep(s) && |s.splitter| == numsplitters {
      var x :| 0 <= x < |samples| && Bumped(samples)[x] == s;
      assert samples[x] in samples;
    }
  }

  lemma CoreStarted(m0: Mem, m: Mem, v: View)
    requires Core(m0, m, v, {}) && !v.started && v.pop < |v.steps|
    ensures var k := |v.steps| - 1; Core(m0, m, v.(steps := WithIdx(v.steps, k, v.steps[k].idx + 1), started := true), {})
  {
    hide Within, Chain, Static;
    StaticStart(v.task, v.steps, v.levels, v.jobs, v.pop);
  }

  lemma LiveIdx(m0: Mem, m: Mem, v: View)
    requires Core(m0, m, v, {}) && !v.started && v.pop < |v.steps|
    ensures ValidStep(v.steps[|v.steps| - 1]) && v.steps[|v.steps| - 1].idx <= PartCount(v.steps[|v.steps| - 1])
  {
    hide Within, PartOk, Keyed, Progress, RankedStep, JobMatches, SharePrefix;
    var k := |v.steps| - 1;
    assert Describes(v.steps[k], v.levels[k + 1], false, false);
  }

  lemma BumpedShape(samples: seq<Step>, samplePop: nat, mkqs: seq<Step>, mkqsPop: nat, numsplitters: nat)
    requires Shape(samples, samplePop, mkqs, mkqsPop, numsplitters) && mkqs != []
    ensures Shape(samples, samplePop, Bumped(mkqs), mkqsPop, numsplitters)
  {
    forall s | s in Bumped(mkqs) ensures s.MkqsStep? {
      var x :| 0 <= x < |mkqs| && Bumped(mkqs)[x] == s;
      assert mkqs[x] in mkqs;
    }
  }

  /** The top step has counted one more part than it has. */
  lemma TopStarted(m0: Mem, m: Mem, v: View)
    requires Core(m0, m, v, {}) && v.started && v.pop < |v.steps|
    requires ValidStep(v.steps[|v.steps| - 1]) && v.steps[|v.steps| - 1].idx == PartCount(v.steps[|v.steps| - 1]) + 1
    ensures TopIdle(v) && Fits(v.steps[|v.steps| - 1], Top(v.levels).parts)
  {
    hide Within, PartOk, Keyed, Progress, RankedStep, JobMatches, SharePrefix;
    var k := |v.steps| - 1;
    assert Describes(v.steps[k], v.levels[k + 1], false, true);
  }

  /** The top step has counted part idx - 1, and that is the waiting part. */
  lemma TopOfStack(m0: Mem, m: Mem, v: View)
    requires Core(m0, m, v, {}) && v.started && v.pop < |v.steps|
    requires ValidStep(v.steps[|v.steps| - 1]) && 0 < v.steps[|v.steps| - 1].idx <= PartCount(v.steps[|v.steps| - 1])
    ensures AtPart(v) && ValidMem(m) && TopStart(v.levels) + |TopPart(v.levels)| <= |m.orig|
    ensures var s, l := v.steps[|v.steps| - 1], Top(v.levels); var j, t := s.idx - 1, v.task;
            && Fits(s, l.parts) && l.lo == s.lo && l.flip == PartFlip(s) && l.next == j
            && s.lo + PartOffset(s, j) == TopStart(v.levels) && PartSize(s, j) == |TopPart(v.levels)|
            && At(Side(m, PartFlip(s)), TopStart(v.levels), TopPart(v.levels))
            && (TopPart(v.levels) != [] ==>
                  if Finished(s, j) then SameTexts(TopPart(v.levels), FinishedLcp(s, j))
                  else Sortable(t, TopPart(v.levels), PartDepth(s, j))
                       && Rank(t.limit, t.size, PartDepth(s, j), |TopPart(v.levels)|) < StepRank(s, t) <= TaskRank(t))
  {
    hide At, Within, Chain, SameTexts, Sortable, Rank, Keyed, Progress, RankedStep, JobMatches;
    var k := |v.steps| - 1;
    assert Describes(v.steps[k], v.levels[k + 1], false, true);
    TopLive(m0, m, v);
    PartOfStep(m0, m, v, {}, k, v.steps[k].idx - 1);
  }

  lemma CoreNested(m0: Mem, m: Mem, v: View)
    requires Core(m0, m, v, {})
    ensures Nested(v.levels)
  {
  }

  lemma CacheKept(keys: seq<nat>, cache: array<nat>, at: nat, n: nat)
    requires |keys| == cache.Length && forall p | 0 <= p < cache.Length && !(at <= p < at + n) :: cache[p] == keys[p]
    ensures KeptKeys(keys, cache[..], at, n)
  {
  }

  /** The next part was sorted, and its keys in the cache may have changed. */
  lemma CleanStarted(m0: Mem, m: Mem, v: View, keys: seq<nat>, cache: array<nat>, base: nat)
    requires Core(m0, m, v, {}) && AtPart(v) && CleanStack(keys, v.steps, v.levels, base) && |keys| == cache.Length
    requires var at, n := TopStart(v.levels), |TopPart(v.levels)|;
             forall p | 0 <= p < cache.Length && !(at <= p < at + n) :: cache[p] == keys[p]
    ensures CleanStack(cache[..], v.steps, Advance(v.levels), base)
  {
    hide Core, CleanStack, KeptKeys, Start;
    CacheKept(keys, cache, TopStart(v.levels), |TopPart(v.levels)|);
    CoreNested(m0, m, v);
    CleanKept(keys, cache[..], v.steps, v.levels, base);
  }

  /** Part j of step s needs no step. */
  method SortSmallPart(st: Store, cache: array<nat>, s: Step, j: nat, at: nat, size: nat, ghost t: Task, ghost part: seq<Str>)
    requires ValidStore(st) && cache != st.lcp && s.MkqsStep? && ValidStep(s) && j < 3
    requires |part| == size == PartSize(s, j) && At(Side(Snap(st), PartFlip(s)), at, part)
    requires part != [] ==> if Finished(s, j) then SameTexts(part, FinishedLcp(s, j)) else Sortable(t, part, PartDepth(s, j))
    requires j != 1 ==> KeysAt(cache, at, part, s.depth)
    modifies st.orig, st.lcp, cache
    ensures Done(Snap(st), at, part) && Within(old(Snap(st)), Snap(st), at, size) && SameOutside(cache, at, size)
  {
    hide At, Done, Within, SameTexts, Sortable, SharePrefix, KeysAt;
    if size == 0 {
      SnapLengths(st);
      NothingToDo(Snap(st), PartFlip(s), at, part);
    } else if Finished(s, j) {
      FillBack(st, at, size, PartFlip(s), FinishedLcp(s, j), part);
    } else {
      SortableParts(t, part, PartDepth(s, j));
      InsertionSortCache(st, cache, at, size, PartFlip(s), j == 1, PartDepth(s, j), part);
    }
  }

  /** The keys of the part that the top step has just started. */
  lemma CleanTop(cache: array<nat>, v: View, base: nat)
    requires CleanStack(cache[..], v.steps, v.levels, base) && base < |v.steps|
    requires AtPart(v) && Top(v.levels).next < 3
    ensures Top(v.levels).next != 1 ==> KeysAt(cache, TopStart(v.levels), TopPart(v.levels), v.steps[|v.steps| - 1].depth)
  {
    hide KeysIn, KeysAt;
    var k := |v.steps| - 1;
    assert CleanLevel(cache[..], v.levels[k + 1], v.steps[k].depth);
    KeysInAt(cache, TopStart(v.levels), TopPart(v.levels), v.steps[k].depth);
  }

  /** idx of a live step counts its level's started parts. */
  lemma LevelOfStep(m0: Mem, m: Mem, v: View, k: nat)
    requires Core(m0, m, v, {}) && v.pop <= k < |v.steps| && !v.started
    ensures ValidStep(v.steps[k]) && |v.levels| == |v.steps| + 1 && v.steps[k].idx <= PartCount(v.steps[k])
    ensures Rest(v.levels, k + 1) == Pending(k + 1, v.steps[k].idx, PartCount(v.steps[k]))
  {
    hide PartOk, Within, RankedStep, Keyed, Progress, SharePrefix;
    assert Describes(v.steps[k], v.levels[k + 1], false, false);
  }

  lemma FreedSteps(samples: seq<Step>, mkqs: seq<Step>, k: nat, i: nat)
    requires k < |samples|
    ensures samples[k := samples[k].(idx := i)] + mkqs == WithIdx(samples + mkqs, k, i)
  {
  }

  lemma SampleShape(samples: seq<Step>, samplePop: nat, mkqs: seq<Step>, mkqsPop: nat, numsplitters: nat, i: nat, limit: nat, size: nat)
    requires Shape(samples, samplePop, mkqs, mkqsPop, numsplitters) && samplePop < |samples|
    ensures var samples' := samples[samplePop := samples[samplePop].(idx := i)];
            && Shape(samples', samplePop + 1, mkqs, mkqsPop, numsplitters)
            && StackPotential(samples', samplePop + 1, limit, size, 2 * numsplitters + 2)
               <= StackPotential(samples, samplePop, limit, size, 2 * numsplitters + 2)
  {
    hide StackPotential;
    var samples' := samples[samplePop := samples[samplePop].(idx := i)];
    forall s | s in samples' ensures s.SampleStep? && ValidStep(s) && |s.splitter| == numsplitters {
      var x :| 0 <= x < |samples'| && samples'[x] == s;
      assert samples[x] in samples;
    }
    FreeLowers(samples, samples', samplePop, samplePop + 1, limit, size, 2 * numsplitters + 2);
  }

  lemma MkqsShape(samples: seq<Step>, samplePop: nat, mkqs: seq<Step>, mkqsPop: nat, numsplitters: nat, limit: nat, size: nat)
    requires Shape(samples, samplePop, mkqs, mkqsPop, numsplitters) && mkqsPop < |mkqs| && samplePop == |samples|
    ensures Shape(samples, samplePop, mkqs, mkqsPop + 1, numsplitters)
    ensures StackPotential(mkqs, mkqsPop + 1, limit, size, 2 * numsplitters + 2)
            <= StackPotential(mkqs, mkqsPop, limit, size, 2 * numsplitters + 2)
  {
    hide StackPotential;
    FreeLowers(mkqs, mkqs, mkqsPop, mkqsPop + 1, limit, size, 2 * numsplitters + 2);
  }

  lemma PartOnSpot(m0: Mem, m: Mem, m': Mem, v: View, r: seq<Once.Ledger>)
    requires Core(m0, m, v, {}) && AtPart(v) && Once.Tracks(r, v.levels, v.jobs.Keys, {})
    requires Within(m, m', TopStart(v.levels), |TopPart(v.levels)|) && Done(m', TopStart(v.levels), TopPart(v.levels))
    ensures Core(m0, m', v.(levels := Advance(v.levels), started := false), {})
    ensures Once.Tracks(Once.Record(r, Once.OnSpot), Advance(v.levels), v.jobs.Keys, {})
  {
    hide Core, Within, Done, Once.Tracks, Once.Record;
    CoreSorted(m0, m, m', v);
    Once.TrackSorted(m0, m, v, r);
  }

  lemma LevelLeft(m0: Mem, m: Mem, m': Mem, v: View, r: seq<Once.Ledger>)
    requires Core(m0, m, v, {}) && TopIdle(v) && Once.Tracks(r, v.levels, v.jobs.Keys, {})
    requires Within(m, m', Top(v.levels).lo, |Concat(Top(v.levels).parts)|)
    requires PartsDone(m', Top(v.levels).lo, Top(v.levels).parts) && BoundariesExact(m', Top(v.levels).lo, Top(v.levels).parts)
    ensures Core(m0, m', LeaveTop(v), {}) && Once.Tracks(Once.Record(r, Once.Leave), LeaveTop(v).levels, v.jobs.Keys, {})
  {
    hide Core, Within, PartsDone, BoundariesExact, Concat, Once.Tracks, Once.Record;
    CoreFinished(m0, m, m', v);
    Once.TrackLeave(v, r);
  }

  lemma LevelGiven(m0: Mem, m: Mem, v: View, r: seq<Once.Ledger>, i: nat)
    requires Core(m0, m, v, {}) && !v.started && v.pop < |v.steps| && Once.Tracks(r, v.levels, v.jobs.Keys, {})
    ensures |v.levels| == |v.steps| + 1 && ValidStep(v.steps[v.pop]) && v.steps[v.pop].idx <= PartCount(v.steps[v.pop])
    ensures Core(m0, m, Freed(v, i), Rest(v.levels, v.pop + 1))
    ensures Once.Tracks(Once.Record(r, Once.FreeLevel(v.pop + 1)), Freed(v, i).levels, v.jobs.Keys, Rest(v.levels, v.pop + 1))
    ensures Rest(v.levels, v.pop + 1) == Pending(v.pop + 1, v.steps[v.pop].idx, PartCount(v.steps[v.pop]))
  {
    hide Core, Once.Tracks, Once.Record;
    LevelOfStep(m0, m, v, v.pop);
    CoreFree(m0, m, v, i);
    Once.TrackFree(m0, m, v, r);
  }

  lemma PartPushed(m0: Mem, m: Mem, m': Mem, v: View, r: seq<Once.Ledger>, s: Step, parts: seq<seq<Str>>, depth: nat)
    requires Core(m0, m, v, {}) && AtPart(v) && Once.Tracks(r, v.levels, v.jobs.Keys, {})
    requires Sortable(v.task, TopPart(v.levels), depth) && StepRank(s, v.task) <= TaskRank(v.task)
    requires Within(m, m', TopStart(v.levels), |TopPart(v.levels)|)
    requires Made(m', s, parts, TopStart(v.levels), |TopPart(v.levels)|, Top(v.levels).flip, depth, TopPart(v.levels))
    ensures var levels' := Advance(v.levels) + [NewLevel(s, parts)];
            && Core(m0, m', v.(steps := v.steps + [s], levels := levels', started := false), {})
            && Once.Tracks(Once.Record(r, Once.Push(NewLevel(s, parts))), levels', v.jobs.Keys, {})
  {
    hide Core, Made, Within, Rank, Sortable, Once.Tracks, Once.Record;
    CorePush(m0, m, m', v, s, parts, depth);
    Once.TrackPush(m0, m, v, r, s, parts);
  }

  lemma ShapeBounds(samples: seq<Step>, samplePop: nat, mkqs: seq<Step>, mkqsPop: nat, numsplitters: nat)
    requires Shape(samples, samplePop, mkqs, mkqsPop, numsplitters)
    ensures samplePop <= |samples| && mkqsPop <= |mkqs| && (mkqsPop > 0 ==> samplePop == |samples|)
  {
  }

  lemma SamplePushShape(samples: seq<Step>, parts: seq<seq<Str>>, samplePop: nat, child: Step, parts': seq<seq<Str>>, numsplitters: nat, t: Task)
    requires Shape(samples, samplePop, [], 0, numsplitters) && samplePop < |samples|
    requires child.SampleStep? && |child.splitter| == numsplitters
    requires Fits(Bumped(samples)[|samples| - 1], parts) && Fits(child, parts')
    requires samples[|samples| - 1].idx < PartCount(samples[|samples| - 1]) && child.idx == 0
    requires child.n == |parts[samples[|samples| - 1].idx]| > 0
    requires Rank(t.limit, t.size, child.depth, child.n) < Rank(t.limit, t.size, samples[|samples| - 1].depth, samples[|samples| - 1].n)
    ensures Shape(Bumped(samples) + [child], samplePop, [], 0, numsplitters)
    ensures StackPotential(Bumped(samples) + [child], samplePop, t.limit, t.size, 2 * numsplitters + 2)
            < StackPotential(samples, samplePop, t.limit, t.size, 2 * numsplitters + 2)
  {
    hide StackPotential, Fits, Rank;
    FitsValid(child, parts');
    PushLowers(samples, parts, child, parts', samplePop, t.limit, t.size, 2 * numsplitters + 2);
    BumpedSampleShape(samples, samplePop, [], 0, numsplitters);
  }

  lemma MkqsStartShape(samples: seq<Step>, samplePop: nat, mkqs: seq<Step>, parts: seq<seq<Str>>, mkqsPop: nat, numsplitters: nat, t: Task)
    requires Shape(samples, samplePop, mkqs, mkqsPop, numsplitters) && mkqsPop < |mkqs|
    requires Fits(Bumped(mkqs)[|mkqs| - 1], parts) && mkqs[|mkqs| - 1].idx < 3
    ensures Shape(samples, samplePop, Bumped(mkqs), mkqsPop, numsplitters)
    ensures StackPotential(Bumped(mkqs), mkqsPop, t.limit, t.size, 2 * numsplitters + 2)
            < StackPotential(mkqs, mkqsPop, t.limit, t.size, 2 * numsplitters + 2)
  {
    hide StackPotential, Fits;
    assert mkqs[|mkqs| - 1] in mkqs;
    StartLowers(mkqs, parts, mkqsPop, t.limit, t.size, 2 * numsplitters + 2);
    BumpedShape(samples, samplePop, mkqs, mkqsPop, numsplitters);
  }

  lemma MkqsPushShape(samples: seq<Step>, samplePop: nat, mkqs: seq<Step>, parts: seq<seq<Str>>, mkqsPop: nat, child: Step,
                      parts': seq<seq<Str>>, numsplitters: nat, t: Task)
    requires Shape(samples, samplePop, mkqs, mkqsPop, numsplitters) && mkqsPop < |mkqs| && numsplitters > 0
    requires child.MkqsStep? && Fits(Bumped(mkqs)[|mkqs| - 1], parts) && Fits(child, parts')
    requires mkqs[|mkqs| - 1].idx < 3 && child.idx == 0 && child.n == |parts[mkqs[|mkqs| - 1].idx]| > 0
    requires Rank(t.limit, t.size, child.depth, child.n) < Rank(t.limit, t.size, mkqs[|mkqs| - 1].depth, mkqs[|mkqs| - 1].n)
    ensures Shape(samples, samplePop, Bumped(mkqs) + [child], mkqsPop, numsplitters)
    ensures StackPotential(Bumped(mkqs) + [child], mkqsPop, t.limit, t.size, 2 * numsplitters + 2)
            < StackPotential(mkqs, mkqsPop, t.limit, t.size, 2 * numsplitters + 2)
  {
    hide StackPotential, Fits, Rank;
    FitsValid(child, parts');
    assert mkqs[|mkqs| - 1] in mkqs;
    PushLowers(mkqs, parts, child, parts', mkqsPop, t.limit, t.size, 2 * numsplitters + 2);
    BumpedShape(samples, samplePop, mkqs, mkqsPop, numsplitters);
  }

  ghost function Pending(k: nat, j: nat, count: nat): (p: set<Child>) {
    set x: nat | j <= x < count :: Child(k, x)
  }

  lemma PendingNext(k: nat, j: nat, count: nat)
    requires j < count
    ensures Child(k, j) in Pending(k, j, count)
    ensures Pending(k, j, count) - {Child(k, j)} == Pending(k, j + 1, count)
  {
  }

  lemma PendingNew(m0: Mem, m: Mem, v: View, pending: set<Child>, c: Child)
    requires Core(m0, m, v, pending) && c in pending
    ensures c !in v.jobs
  {
  }

  lemma JobsMore(jobs: map<Child, Job>, c: Child, j: Job)
    requires c !in jobs
    ensures |jobs[c := j]| == |jobs| + 1
  {
    assert jobs[c := j].Keys == jobs.Keys + {c};
    assert |jobs| == |jobs.Keys| && |jobs[c := j]| == |jobs[c := j].Keys|;
  }

  lemma NothingToDo(m: Mem, flip: bool, at: nat, part: seq<Str>)
    requires ValidMem(m) && At(Side(m, flip), at, part) && part == []
    ensures Done(m, at, part) && Within(m, m, at, |part|)
  {
    WithinSame(m, at, |part|);
    DoneEmpty(m, at);
  }

  /** What the fields of a step say about its part j. */
  lemma PartOfStep(m0: Mem, m: Mem, v: View, pending: set<Child>, k: nat, j: nat)
    requires Core(m0, m, v, pending) && k < |v.steps| && IsPart(v.levels, k + 1, j)
    ensures ValidMem(m) && ValidStep(v.steps[k]) && j < PartCount(v.steps[k])
    ensures v.levels[k + 1].lo == v.steps[k].lo && v.levels[k + 1].flip == PartFlip(v.steps[k])
    ensures var s, part, t := v.steps[k], v.levels[k + 1].parts[j], v.task;
            && s.lo + PartOffset(s, j) == Start(v.levels, k + 1, j) && PartSize(s, j) == |part|
            && (part != [] ==>
                  if Finished(s, j) then SameTexts(part, FinishedLcp(s, j))
                  else JobMatches(Child(k + 1, j), Job(s.lo + PartOffset(s, j), |part|, PartFlip(s), PartDepth(s, j)), s, v.levels[k + 1])
                       && Sortable(t, part, PartDepth(s, j)) && Rank(t.limit, t.size, PartDepth(s, j), |part|) < StepRank(s, t) <= TaskRank(t))
  {
    hide At, Within, Done, SameTexts, Sortable, Rank, TaskOk, OnTask, Ranked, JobsMatch, Described, PartOk;
    PartFacts(v.task, v.steps, v.levels, v.jobs, v.pop, v.started, k, j);
  }

  lemma SortableParts(t: Task, s: seq<Str>, depth: nat)
    requires Sortable(t, s, depth)
    ensures Short(s, t.limit) && |s| <= t.size && SharePrefix(s, depth)
  {
  }

  lemma CoreShape(m0: Mem, m: Mem, v: View, pending: set<Child>)
    requires Core(m0, m, v, pending)
    ensures |v.levels| == |v.steps| + 1
  {
  }

  lemma FreedIdle(m0: Mem, m: Mem, v: View)
    requires Core(m0, m, v, {}) && v.steps != [] && v.pop == |v.steps| && v.jobs == map[] && !v.started
    ensures TopIdle(v)
  {
    hide Fits, Chain, Within, RankedStep;
    var k := |v.steps| - 1;
    assert Describes(v.steps[k], v.levels[k + 1], true, false);
  }

  /** calculate_lcp() of the highest level that was given away. */
  method LeaveFreed(st: Store, s: Step, ghost m0: Mem, ghost v: View, ghost r: seq<Once.Ledger>)
    returns (ghost v': View, ghost r': seq<Once.Ledger>)
    requires ValidStore(st) && Core(m0, Snap(st), v, {}) && Once.Tracks(r, v.levels, v.jobs.Keys, {})
    requires v.steps != [] && v.pop == |v.steps| && v.jobs == map[] && !v.started && s == v.steps[|v.steps| - 1]
    modifies st.lcp
    ensures Core(m0, Snap(st), v', {}) && Once.Tracks(r', v'.levels, v'.jobs.Keys, {})
    ensures var n := |v.steps| - 1; |v.levels| == n + 2 && v' == View(v.task, v.steps[..n], v.levels[..n + 1], map[], n, false)
  {
    hide Core, Once.Tracks, Once.Record, Fits, PartsDone, BoundariesExact, Within;
    ghost var m := Snap(st);
    CoreShape(m0, m, v, {});
    FreedIdle(m0, m, v);
    TopDone(m0, m, v);
    CalculateLcp(st, s, Top(v.levels).parts);
    CoreFinished(m0, m, Snap(st), v);
    Once.TrackLeave(v, r);
    v', r' := LeaveTop(v), Once.Record(r, Once.Leave);
  }

  lemma MadeFields(m: Mem, step: Step, parts: seq<seq<Str>>, lo: nat, n: nat, flip: bool, depth: nat, s: seq<Str>)
    requires Made(m, step, parts, lo, n, flip, depth, s)
    ensures step.lo == lo && step.depth == depth
  {
  }

  /** The area of the job, or a bucket, became the first MKQS step. */
  lemma FirstPush(m0: Mem, m: Mem, m': Mem, v: View, r: seq<Once.Ledger>, keys: seq<nat>, s: Step, parts: seq<seq<Str>>, d: nat)
    requires Core(m0, m, v, {}) && AtPart(v) && Once.Tracks(r, v.levels, v.jobs.Keys, {}) && Sortable(v.task, TopPart(v.levels), d) && s.MkqsStep?
    requires Rank(v.task.limit, v.task.size, d, |TopPart(v.levels)|) <= TaskRank(v.task)
    requires Within(m, m', TopStart(v.levels), |TopPart(v.levels)|) && CleanLevel(keys, NewLevel(s, parts), s.depth)
    requires Made(m', s, parts, TopStart(v.levels), |TopPart(v.levels)|, Top(v.levels).flip, d, TopPart(v.levels))
    ensures ValidStep(s) && |v.levels| == |v.steps| + 1
    ensures Core(m0, m', v.(steps := v.steps + [s], levels := Advance(v.levels) + [NewLevel(s, parts)], started := false), {})
    ensures Once.Tracks(Once.Record(r, Once.Push(NewLevel(s, parts))), Advance(v.levels) + [NewLevel(s, parts)], v.jobs.Keys, {})
    ensures CleanStack(keys, v.steps + [s], Advance(v.levels) + [NewLevel(s, parts)], |v.steps|)
  {
    hide Core, Once.Tracks, Once.Record, At, Within, Rank, CleanLevel, CleanStack, Concat, Sortable, Fits, PartsAt;
    CoreNested(m0, m, v);
    FitsValid(s, parts);
    PartPushed(m0, m, m', v, r, s, parts, d);
    CleanOne(keys, v.steps, Advance(v.levels), s, NewLevel(s, parts));
  }

  lemma FirstShape(samples: seq<Step>, samplePop: nat, s: Step, numsplitters: nat)
    requires Shape(samples, samplePop, [], 0, numsplitters) && s.MkqsStep? && ValidStep(s)
    ensures Shape(samples, samplePop, [s], 0, numsplitters)
  {
  }

  /** Enqueue(), and the execution of the new job with all its children. */
  method Enqueue(st: Store, ctx: Context, job: Job, ghost s: seq<Str>, ghost limit: nat, ghost size: nat)
    returns (step: SampleSortStep?, small: SmallsortJob?)
    requires ValidStore(st) && ValidContext(ctx)
    requires |s| == job.n && At(Side(Snap(st), job.flip), job.lo, s)
    requires SharePrefix(s, job.depth) && Short(s, limit) && |s| <= size
    modifies st.orig, st.shadow, st.lcp
    ensures Done(Snap(st), job.lo, s) && Within(old(Snap(st)), Snap(st), job.lo, job.n)
    ensures if job.n > SequentialThreshold(ctx) then step != null && step.task == Task(job.lo, job.flip, job.depth, s, limit, size) && step.Complete()
            else small != null && small.task == Task(job.lo, job.flip, job.depth, s, limit, size) && small.Complete()
    decreases Rank(limit, size, job.depth, job.n), 12
  {
    hide Core, At, Within, Done, SharePrefix, Rank;
    step, small := null, null;
    ghost var task := Task(job.lo, job.flip, job.depth, s, limit, size);
    if job.n > SequentialThreshold(ctx) {
      step := new SampleSortStep(st, ctx, job.lo, job.n, job.flip, job.depth, task);
      step.Run();
      step.Drain();
    } else {
      small := new SmallsortJob(st, ctx, job.lo, job.n, job.flip, job.depth, task);
      small.Run();
      small.Drain();
    }
  }

  // ---------------------------------------------- parallel sample sort step

  const MAXPROCS := 2 * 64 + 1

  class SampleSortStep {
    const st: Store
    const lo: nat
    const n: nat
    const flip: bool
    const depth: nat
    const ctx: Context
    ghost const task: Task

    /** Classifier, splitter LCPs and bucket boundaries. */
    var step: Step
    var working: nat
    var jobs: map<Child, Job>
    var done: bool

    ghost var levels: seq<Level>
    ghost var start: Mem
    /** What has happened to the buckets and the step. */
    ghost var history: seq<Once.Ledger>

    ghost function Now(): (v: View)
      reads this
    {
      View(task, [step], levels, jobs, 1, false)
    }

    ghost predicate OnArea()
      reads this
    {
      && ValidStore(st) && ValidContext(ctx) && n > 0
      && task.lo == lo && |task.whole| == n && task.flip == flip && task.depth == depth
    }

    /** The strings were distributed; buckets in pending have no job yet. */
    ghost predicate Open(pending: set<Child>)
      reads this, st.orig, st.shadow, st.lcp
    {
      && OnArea() && step.SampleStep? && |levels| == 2 && levels[0].next == 1 && !done
      && step.splitterLcp == Classifier.SplitterLcps(step.splitter) && step.depth == depth
      && Core(start, Snap(st), Now(), pending) && Once.Tracks(history, levels, jobs.Keys, pending)
    }

    ghost predicate Complete()
      reads this, st.orig, st.shadow, st.lcp
    {
      done && Done(Snap(st), lo, task.whole) && Within(start, Snap(st), lo, n) && Once.AllOnce(history)
    }

    constructor (st: Store, ctx: Context, lo: nat, n: nat, flip: bool, depth: nat, ghost task: Task)
      requires ValidStore(st) && ValidContext(ctx) && n > 0
      requires task.lo == lo && |task.whole| == n && task.flip == flip && task.depth == depth
      ensures this.st == st && this.task == task && this.lo == lo && this.n == n && OnArea()
      ensures start == old(Snap(st)) && unchanged(st.orig, st.shadow, st.lcp)
      ensures working == 0 && jobs == map[] && !done
    {
      this.st, this.lo, this.n, this.flip, this.depth := st, lo, n, flip, depth;
      this.ctx, this.task := ctx, task;
      step := SampleStep(lo, n, flip, depth, 0, [], [], []);
      working, jobs, done, levels, history := 0, map[], false, [], [];
      start := Snap(st);
    }

    /** sample(), the count and distribute jobs, and distribute_finished(). */
    method Run()
      requires OnArea() && working == 0 && jobs == map[] && !done
      requires TaskOk(task) && start == Snap(st) && At(Side(Snap(st), flip), lo, task.whole)
      modifies this, st.orig, st.shadow, st.lcp
      ensures if working == 0 then Complete() else Open({}) && working == |jobs|
      ensures start == old(start)
      decreases TaskRank(task), 4
    {
      hide Core, Once.AllOnce, Once.Tracks, Once.Record, At, Within, Done;
      var parts := n / SequentialThreshold(ctx) * 2;
      if parts == 0 { parts := 1; }
      if parts > MAXPROCS { parts := MAXPROCS; }
      MakeStep(parts);
      ghost var queued := DistributeFinished();
    }

    method MakeStep(parallel: nat)
      requires OnArea() && working == 0 && jobs == map[] && !done && parallel > 0
      requires TaskOk(task) && start == Snap(st) && At(Side(Snap(st), flip), lo, task.whole)
      modifies this`history, this`step, this`levels, st.orig, st.shadow
      ensures ValidStep(step) && Open(Pending(1, 0, PartCount(step)))
    {
      hide Core, Once.Tracks, Once.Record, Fits, At, Within, Sortable, Rank, Concat, TaskOk;
      ghost var whole := Level(flip, lo, [task.whole], 0, false);
      ghost var v, m := View(task, [], [whole], map[], 0, false), Snap(st);
      SnapLengths(st);
      CoreStart(m, task);
      WholeSortable(m, m, v);
      SortableParts(task, task.whole, depth);
      ghost var parts;
      step, parts := MakeSampleStep(st, lo, n, flip, depth, ctx.treebits, parallel, task.whole);
      CorePush(m, m, Snap(st), v, step, parts, depth);
      history := Once.Started(whole);
      Once.TrackStart(whole);
      assert v.jobs.Keys == {};
      Once.TrackPush(m, m, v, history, step, parts);
      history := Once.Record(history, Once.Push(NewLevel(step, parts)));
      levels := Advance([whole]) + [NewLevel(step, parts)];
      ghost var v1 := View(task, [step], levels, map[], 0, false);
      assert [] + [step] == [step];
      LevelOfStep(m, Snap(st), v1, 0);
      CoreFree(m, Snap(st), v1, 0);
      Once.TrackFree(m, Snap(st), v1, history);
      history := Once.Record(history, Once.FreeLevel(1));
      levels := Free(levels, 1);
      assert Now() == Freed(v1, 0);
    }

    /** Bucket i: nothing, a single string, equal texts, or a job. */
    method FreeBucket(i: nat, ghost pending: set<Child>)
      requires Open(pending) && Child(1, i) in pending && ValidStep(step) && i < PartCount(step)
      modifies this`history, this`jobs, this`working, st.orig, st.lcp
      ensures Open(pending - {Child(1, i)})
      ensures working - |jobs| == old(working - |jobs|)
      ensures if PartSize(step, i) <= 1 || Finished(step, i) then jobs == old(jobs)
              else Child(1, i) !in old(jobs) && Child(1, i) in jobs && IsJobFor(jobs[Child(1, i)], step, i)
                   && jobs == old(jobs)[Child(1, i) := jobs[Child(1, i)]]
    {
      hide Core, Once.Tracks, Once.Record, At, Within, Done, Sortable, SameTexts, Rank;
      ghost var m, v := Snap(st), Now();
      var c := Child(1, i);
      CoreShape(start, m, v, pending);
      Waiting(start, m, v, pending, c);
      PartOfStep(start, m, v, pending, 0, i);
      ghost var part := PartOf(v, c);
      var size, at := PartSize(step, i), step.lo + PartOffset(step, i);
      if size == 0 {
        NothingToDo(m, PartFlip(step), at, part);
      } else if size == 1 {
        CopyBack(st, at, 1, PartFlip(step), part);
        DoneOne(Snap(st), at, part);
      } else if Finished(step, i) {
        FillBack(st, at, size, PartFlip(step), FinishedLcp(step, i), part);
      } else {
        // the last bucket has no splitter LCP
        var d := if i % 2 == 1 then depth + 8
                 else if i == PartCount(step) - 1 then depth
                 else depth + step.splitterLcp[i / 2] % 0x80;
        assert d == PartDepth(step, i);
        PendingNew(start, m, v, pending, c);
        working := working + 1;
        jobs := jobs[c := Job(at, size, PartFlip(step), d)];
        JobsMore(v.jobs, c, jobs[c]);
        CoreEnqueue(start, m, v, pending, c, jobs[c]);
        Once.TrackGive(history, levels, v.jobs, pending, c, jobs[c]);
        history := Once.Record(history, Once.Give(c));
        return;
      }
      CorePartDone(start, m, Snap(st), v, pending, c);
      Once.TrackPartDone(history, levels, jobs.Keys, pending, c);
      history := Once.Record(history, Once.PartDone(c));
      assert Now() == v;
    }

    /** Which buckets become jobs: those that need to be sorted. */
    ghost predicate Large(i: nat)
      requires ValidStep(step) && i < PartCount(step)
      reads this`step
    {
      PartSize(step, i) > 1 && !Finished(step, i)
    }

    /** What other threads run after bucket i. */
    function Order(i: nat): (order: seq<Child>) {
      ctx.others(Job(lo, n, flip, depth), i)
    }

    /** Some thread has run c after one of the buckets from..to. */
    ghost predicate Ran(c: Child, from: nat, to: nat) {
      exists i :: from <= i < to && c in Order(i)
    }

    /** With the first i buckets done: queued holds the jobs that were made of them, jobs
        those of them that have not run. */
    ghost predicate Queued(queued: map<Child, Job>, left: map<Child, Job>, i: nat)
      requires ValidStep(step) && i <= PartCount(step)
      reads this`step
    {
      && (forall c :: c in queued <==> c.level == 1 && c.part < i && Large(c.part))
      && (forall c | c in queued :: c.part < i && IsJobFor(queued[c], step, c.part))
      && left == map c | c in queued && !Ran(c, c.part, i) :: queued[c]
    }

    /** distribute_finished(): the anonymous handle keeps the step alive while its
        jobs are made; other threads already run some of them. */
    method DistributeFinished() returns (ghost queued: map<Child, Job>)
      requires ValidStep(step) && Open(Pending(1, 0, PartCount(step))) && working == 0 && jobs == map[]
      modifies this`history, this`jobs, this`working, this`done, st.orig, st.shadow, st.lcp
      ensures if working == 0 then Complete() else Open({}) && working == |jobs|
      ensures Queued(queued, jobs, PartCount(step))
      decreases TaskRank(task), 3
    {
      hide Core, Once.AllOnce, Once.Tracks, Once.Record, Done, Within, Queued, Without, Large, Ran, Order;
      working := working + 1;
      assert Now() == old(Now());
      var i := 0;
      queued := map[];
      NothingQueued();
      while i < PartCount(step)
        invariant i <= PartCount(step) && Open(Pending(1, i, PartCount(step))) && working == |jobs| + 1 && Queued(queued, jobs, i)
      {
        PendingNext(1, i, PartCount(step));
        ghost var left, before := jobs, queued;
        FreeBucket(i, Pending(1, i, PartCount(step)));
        ghost var more := jobs;
        if PartSize(step, i) > 1 && !Finished(step, i) { queued := queued[Child(1, i) := jobs[Child(1, i)]]; }
        RunJobs(Order(i), Pending(1, i + 1, PartCount(step)));
        BucketQueued(before, left, queued, more, jobs, i);
        i := i + 1;
      }
      assert Pending(1, i, PartCount(step)) == {};
      assert working == 1 ==> jobs == map[];
      NotifyDone({});
    }

    lemma NothingQueued()
      requires ValidStep(step)
      ensures Queued(map[], map[], 0)
    {
    }

    /** Bucket i became a job or not, and some jobs ran. */
    lemma BucketQueued(queued: map<Child, Job>, left: map<Child, Job>, queued': map<Child, Job>, more: map<Child, Job>, left': map<Child, Job>, i: nat)
      requires ValidStep(step) && i < PartCount(step) && Queued(queued, left, i)
      requires if PartSize(step, i) <= 1 || Finished(step, i) then more == left && queued' == queued
               else Child(1, i) in more && IsJobFor(more[Child(1, i)], step, i)
                    && more == left[Child(1, i) := more[Child(1, i)]] && queued' == queued[Child(1, i) := more[Child(1, i)]]
      requires left' == Without(more, Order(i))
      ensures Queued(queued', left', i + 1)
    {
      hide PartSize, Finished, IsJobFor, Order, Large, Ran, Without;
      LargeIs(i);
      forall c: Child
        ensures c in queued' <==> c.level == 1 && c.part < i + 1 && Large(c.part)
        ensures c in queued' ==> c.part < i + 1 && IsJobFor(queued'[c], step, c.part)
        ensures c in left' <==> c in queued' && !Ran(c, c.part, i + 1)
        ensures c in left' ==> left'[c] == queued'[c]
      {
        RanMore(c, i);
        LeftIs(more, Order(i), c);
      }
    }

    lemma LargeIs(i: nat)
      requires ValidStep(step) && i < PartCount(step)
      ensures Large(i) <==> PartSize(step, i) > 1 && !Finished(step, i)
    {
    }

    lemma RanMore(c: Child, i: nat)
      ensures Ran(c, c.part, i + 1) <==> Ran(c, c.part, i) || (c.part <= i && c in Order(i))
      ensures c.part == i ==> !Ran(c, c.part, i)
    {
      hide Order;
    }

    /** Other threads run these of the jobs, in this order. */
    method RunJobs(order: seq<Child>, ghost pending: set<Child>)
      requires Open(pending) && working == |jobs| + 1
      modifies this`history, this`jobs, this`working, this`done, st.orig, st.shadow, st.lcp
      ensures Open(pending) && working == |jobs| + 1 && jobs == Without(old(jobs), order)
      decreases TaskRank(task), 1
    {
      hide Open, Complete, Without;
      var i := 0;
      WithoutNone(jobs);
      while i < |order|
        invariant 0 <= i <= |order| && Open(pending) && working == |jobs| + 1 && jobs == Without(old(jobs), order[..i])
      {
        WithoutOne(old(jobs), order, i);
        if order[i] in jobs {
          RunOneJob(order[i], pending);
          NotifyDone(pending);
        }
        i := i + 1;
      }
      assert order[..i] == order;
    }

    method RunOneJob(c: Child, ghost pending: set<Child>)
      requires Open(pending) && c in jobs
      modifies this`history, this`jobs, st.orig, st.shadow, st.lcp
      ensures Open(pending) && |jobs| == old(|jobs|) - 1 && jobs == old(jobs) - {c}
      decreases TaskRank(task), 0
    {
      hide Core, Once.Tracks, Once.Record, At, Within, Done, Sortable, Rank;
      ghost var m, v := Snap(st), Now();
      var job := jobs[c];
      JobReady(start, m, v, pending, c);
      SortableParts(task, PartOf(v, c), job.depth);
      var _, _ := Enqueue(st, ctx, job, PartOf(v, c), task.limit, task.size);
      CoreJobDone(start, m, Snap(st), v, pending, c);
      Once.TrackJobDone(history, levels, v.jobs, pending, c);
      history := Once.Record(history, Once.JobDone(c));
      jobs := jobs - {c};
      OneFewer(old(jobs), c);
      assert Now() == v.(jobs := v.jobs - {c});
    }

    method NotifyDone(ghost pending: set<Child>)
      requires working > 0 && Open(pending) && (working == 1 ==> jobs == map[] && pending == {})
      modifies this`history, this`working, this`done, st.lcp
      ensures working == old(working) - 1 && if working == 0 then Complete() else Open(pending)
    {
      hide Core, Once.AllOnce, Once.Tracks, Once.Record, Done, Within;
      working := working - 1;
      if working == 0 {
        SubstepAllDone();
      } else {
        assert Now() == old(Now());
      }
    }

    /** substep_all_done(): the LCPs between the buckets. */
    method SubstepAllDone()
      requires Open({}) && jobs == map[]
      modifies this`history, this`done, st.lcp
      ensures Complete()
    {
      hide Core, Once.AllOnce, Once.Tracks, Once.Record, Done, Within;
      ghost var v;
      v, history := LeaveFreed(st, step, start, Now(), history);
      CoreEmpty(start, Snap(st), v);
      Once.TrackEnd(history, v.levels, v.jobs);
      done := true;
    }

    /** The jobs that are left run in any order. */
    method Drain()
      requires if working == 0 then Complete() else Open({}) && working == |jobs|
      modifies this`history, this`jobs, this`working, this`done, st.orig, st.shadow, st.lcp
      ensures Complete()
      decreases TaskRank(task), 1
    {
      hide Core, Once.AllOnce, Once.Tracks, Once.Record, Done, Within;
      while working > 0
        invariant if working == 0 then Complete() else Open({}) && working == |jobs|
      {
        var c :| c in jobs;
        RunOneJob(c, {});
        assert working == 1 ==> jobs == map[];
        NotifyDone({});
      }
    }
  }

  /** The whole area as the only part of a bottom level. */
  lemma CoreStart(m: Mem, t: Task)
    requires TaskOk(t) && ValidMem(m) && At(Side(m, t.flip), t.lo, t.whole)
    ensures Core(m, m, View(t, [], [Level(t.flip, t.lo, [t.whole], 0, false)], map[], 0, false), {})
  {
    hide At, Within;
    WholeOffset(t.whole);
    WithinSame(m, t.lo, |t.whole|);
  }

  /** parallel_sample_sort(): for every schedule, every sample and every shape of
      the job tree. */
  method ParallelSampleSort(st: Store, ctx: Context, depth: nat)
    requires ValidStore(st) && ValidContext(ctx) && SharePrefix(st.orig[..], depth)
    modifies st.orig, st.shadow, st.lcp
    ensures Sorted(st.orig[..]) && multiset(st.orig[..]) == multiset(old(st.orig[..]))
    ensures forall i | 0 < i < st.orig.Length :: st.lcp[i] == Lcp(st.orig[i - 1], st.orig[i])
    ensures st.lcp.Length > 0 ==> st.lcp[0] == old(st.lcp[0])
  {
    hide Lcp, Leq, SharePrefix;
    ghost var s, m := st.orig[..], Snap(st);
    var n := st.orig.Length;
    var _, _ := Enqueue(st, ctx, Job(0, n, false, depth), s, LongestText(s), n);
    ghost var m' := Snap(st);
    assert m'.orig[0..n] == m'.orig;
    forall i, j | 0 <= i < j < n ensures Leq(m'.orig[i], m'.orig[j]) {
    }
    forall i | 0 < i < n ensures st.lcp[i] == Lcp(st.orig[i - 1], st.orig[i]) {
      assert m'.lcp[i] == Lcp(m'.orig[i - 1], m'.orig[i]);
    }
    assert n > 0 ==> m'.lcp[0] == m.lcp[0];
  }
}
