/** The whole invariant of a small-sort job, memory included, and what every kind
    of event does to it. */
module Cores {
  import opened Areas
  import opened Jobs
  import opened Levels
  import opened MakeSteps
  import Potential
  import opened StableSort
  import opened Steps
  import opened Strings

  /** A job's state but for memory. */
  datatype View = View(task: Task, steps: seq<Step>, levels: seq<Level>, jobs: map<Child, Job>, pop: nat, started: bool)

  ghost predicate StaticView(v: View) {
    Static(v.task, v.steps, v.levels, v.jobs, v.pop, v.started)
  }

  /** m0 is the memory when the job started; pending parts of freed levels have
      not been made jobs yet. */
  ghost predicate Core(m0: Mem, m: Mem, v: View, pending: set<Child>) {
    && StaticView(v) && Chain(m, v.levels, v.jobs.Keys + pending)
    && Within(m0, m, v.task.lo, |v.task.whole|)
    && pending !! v.jobs.Keys
  }

  ghost function TopPart(levels: seq<Level>): (s: seq<Str>)
    requires levels != [] && Top(levels).next < |Top(levels).parts|
  {
    Top(levels).parts[Top(levels).next]
  }

  ghost function TopStart(levels: seq<Level>): (p: nat)
    requires levels != [] && Top(levels).next < |Top(levels).parts|
  {
    Start(levels, |levels| - 1, Top(levels).next)
  }

  /** The job is about to sort the next part of its top level. */
  ghost predicate AtPart(v: View) {
    && v.levels != [] && Top(v.levels).next < |Top(v.levels).parts| && |v.levels| == |v.steps| + 1
    && (v.started <==> v.steps != []) && (v.pop < |v.steps| || v.steps == [])
  }

  lemma PartInside(t: Task, levels: seq<Level>, k: nat, j: nat)
    requires Nested(levels) && OnTask(levels, t) && IsPart(levels, k, j)
    ensures t.lo <= Start(levels, k, j) && Start(levels, k, j) + |levels[k].parts[j]| <= t.lo + |t.whole|
  {
    hide Concat;
    OffsetNext(levels[k].parts, j);
    OffsetMono(levels[k].parts, j + 1, |levels[k].parts|);
    if k > 0 {
      LevelInside(levels, 0, k);
      OffsetNext(levels[0].parts, 0);
      OffsetMono(levels[0].parts, 1, 1);
      WholeOffset(t.whole);
    } else {
      WholeOffset(t.whole);
    }
  }

  lemma WholeOffset(whole: seq<Str>)
    ensures Offset([whole], 0) == 0 && Concat([whole]) == whole
  {
    assert [whole][..0] == [];
    assert Concat([whole]) == Concat([]) + whole;
  }

  /** A part's change is a change inside the task's area. */
  lemma WithinTask(m0: Mem, m: Mem, m': Mem, v: View, pending: set<Child>, k: nat, j: nat)
    requires Core(m0, m, v, pending) && IsPart(v.levels, k, j)
    requires Within(m, m', Start(v.levels, k, j), |v.levels[k].parts[j]|)
    ensures Within(m0, m', v.task.lo, |v.task.whole|)
  {
    hide Within, Concat, Offset, KidsOk, PartOk;
    PartInside(v.task, v.levels, k, j);
    WithinTrans(m0, m, m', v.task.lo, |v.task.whole|, Start(v.levels, k, j), |v.levels[k].parts[j]|);
  }

  lemma TopLive(m0: Mem, m: Mem, v: View)
    requires Core(m0, m, v, {}) && AtPart(v)
    ensures !Top(v.levels).freed && IsPart(v.levels, |v.levels| - 1, Top(v.levels).next) && ValidMem(m)
    ensures At(Side(m, Top(v.levels).flip), TopStart(v.levels), TopPart(v.levels))
    ensures TopStart(v.levels) + |TopPart(v.levels)| <= |m.orig|
    ensures v.jobs.Keys + {} == v.jobs.Keys
  {
    hide At, Done, Within, Fits, RankedStep, JobMatches, Offset, TaskOk;
    var k, j := |v.levels| - 1, Top(v.levels).next;
    if v.steps != [] {
      assert Describes(v.steps[k - 1], v.levels[k], k - 1 < v.pop, v.started);
    }
    assert PartOk(m, v.levels, v.jobs.Keys + {}, k, j);
    AtInside(m, Top(v.levels).flip, TopStart(v.levels), TopPart(v.levels));
  }

  lemma AtInside(m: Mem, flip: bool, at: nat, s: seq<Str>)
    requires ValidMem(m) && At(Side(m, flip), at, s)
    ensures at + |s| <= |m.orig|
  {
  }

  /** The next part was sorted on the spot. */
  lemma CoreSorted(m0: Mem, m: Mem, m': Mem, v: View)
    requires Core(m0, m, v, {}) && AtPart(v)
    requires Within(m, m', TopStart(v.levels), |TopPart(v.levels)|) && Done(m', TopStart(v.levels), TopPart(v.levels))
    ensures Core(m0, m', v.(levels := Advance(v.levels), started := false), {})
  {
    hide Within, Done, Chain, Static;
    TopLive(m0, m, v);
    CoreParts(m0, m, v, {});
    PartSorted(m, m', v.levels, v.jobs.Keys);
    StaticAdvance(v.task, v.steps, v.levels, v.jobs, v.pop, v.started);
    WithinTask(m0, m, m', v, {}, |v.levels| - 1, Top(v.levels).next);
  }

  lemma CoreParts(m0: Mem, m: Mem, v: View, pending: set<Child>)
    requires Core(m0, m, v, pending)
    ensures Static(v.task, v.steps, v.levels, v.jobs, v.pop, v.started) && Chain(m, v.levels, v.jobs.Keys + pending)
  {
  }

  /** The next part got a step of its own. */
  lemma CorePush(m0: Mem, m: Mem, m': Mem, v: View, s: Step, parts: seq<seq<Str>>, depth: nat)
    requires Core(m0, m, v, {}) && AtPart(v)
    requires Sortable(v.task, TopPart(v.levels), depth)
    requires Within(m, m', TopStart(v.levels), |TopPart(v.levels)|)
    requires Made(m', s, parts, TopStart(v.levels), |TopPart(v.levels)|, Top(v.levels).flip, depth, TopPart(v.levels))
    requires StepRank(s, v.task) <= TaskRank(v.task)
    ensures Core(m0, m', v.(steps := v.steps + [s], levels := Advance(v.levels) + [NewLevel(s, parts)], started := false), {})
  {
    hide Within, Done, Chain, Static, Fits, At, Concat, Offset, Short;
    TopLive(m0, m, v);
    CoreParts(m0, m, v, {});
    PartsOrdered(s, parts);
    ShortPermuted(TopPart(v.levels), Concat(parts), v.task.limit);
    PartSplit(m, m', v.levels, v.jobs.Keys, NewLevel(s, parts));
    StaticPush(v.task, v.steps, v.levels, v.jobs, v.pop, v.started, s, parts);
    WithinTask(m0, m, m', v, {}, |v.levels| - 1, Top(v.levels).next);
  }

  lemma ShortPermuted(s: seq<Str>, t: seq<Str>, limit: nat)
    requires Short(s, limit) && multiset(s) == multiset(t)
    ensures Short(t, limit) && |t| == |s|
  {
    assert |multiset(s)| == |multiset(t)|;
    forall x | x in t ensures |x.text| <= limit {
      assert x in multiset(s);
    }
  }

  // ----------------------------------------------------- leaving a level

  /** The top level has no part left: all were started and none is a job. */
  ghost predicate TopIdle(v: View) {
    && v.steps != [] && |v.levels| == |v.steps| + 1
    && (forall c | c in v.jobs :: c.level < |v.steps|)
    && (Top(v.levels).freed || Top(v.levels).next == |Top(v.levels).parts|)
  }

  lemma TopDone(m0: Mem, m: Mem, v: View)
    requires Core(m0, m, v, {}) && TopIdle(v)
    ensures var s := v.steps[|v.steps| - 1];
            && Fits(s, Top(v.levels).parts) && s.lo == Top(v.levels).lo && s.n == |Concat(Top(v.levels).parts)|
            && PartsDone(m, s.lo, Top(v.levels).parts)
  {
    hide At, Done, Within, Keyed, Progress, RankedStep, JobMatches, Offset, TaskOk, OnTask, Concat, SharePrefix;
    var k := |v.levels| - 1;
    assert Describes(v.steps[k - 1], v.levels[k], k - 1 < v.pop, v.started);
    forall j | 0 <= j < |Top(v.levels).parts| ensures Done(m, Top(v.levels).lo + Offset(Top(v.levels).parts, j), Top(v.levels).parts[j]) {
      assert PartOk(m, v.levels, v.jobs.Keys + {}, k, j);
    }
  }

  /** The level's LCPs were calculated, and the level was left. */
  function LeaveTop(v: View): (v': View)
    requires v.steps != [] && |v.levels| == |v.steps| + 1
  {
    var n := |v.steps| - 1;
    v.(steps := v.steps[..n], levels := v.levels[..n + 1], pop := if v.pop <= n then v.pop else n, started := false)
  }

  lemma CoreFinished(m0: Mem, m: Mem, m': Mem, v: View)
    requires Core(m0, m, v, {}) && TopIdle(v)
    requires Within(m, m', Top(v.levels).lo, |Concat(Top(v.levels).parts)|)
    requires PartsDone(m', Top(v.levels).lo, Top(v.levels).parts) && BoundariesExact(m', Top(v.levels).lo, Top(v.levels).parts)
    ensures Core(m0, m', LeaveTop(v), {})
  {
    hide At, Done, Within, Chain, BoundariesExact, Concat, Offset, Static;
    CoreParts(m0, m, v, {});
    TopDone(m0, m, v);
    assert v.jobs.Keys + {} == v.jobs.Keys;
    TopInMem(m0, m, m', v);
    LevelFinished(m, m', v.levels, v.jobs.Keys);
    StaticPop(v.task, v.steps, v.levels, v.jobs, v.pop, v.started);
    TopInTask(m0, m, m', v);
  }

  lemma TopInMem(m0: Mem, m: Mem, m': Mem, v: View)
    requires Core(m0, m, v, {}) && TopIdle(v) && PartsDone(m', Top(v.levels).lo, Top(v.levels).parts)
    ensures Top(v.levels).lo <= |m'.orig|
  {
    hide At, Within, Core, Done, Offset, Keyed, Progress, SharePrefix;
    TopDone(m0, m, v);
    var l := Top(v.levels);
    assert |l.parts| > 0;
    assert Done(m', l.lo + Offset(l.parts, 0), l.parts[0]);
    DoneRange(m', l.lo + Offset(l.parts, 0), l.parts[0]);
  }

  lemma TopInTask(m0: Mem, m: Mem, m': Mem, v: View)
    requires Core(m0, m, v, {}) && TopIdle(v) && Within(m, m', Top(v.levels).lo, |Concat(Top(v.levels).parts)|)
    ensures Within(m0, m', v.task.lo, |v.task.whole|)
  {
    hide Within, Concat, Offset, KidsOk, PartOk, Described, Ranked, JobsMatch, TaskOk;
    var levels := v.levels;
    LevelInside(levels, 0, |levels| - 1);
    WholeOffset(v.task.whole);
    WithinTrans(m0, m, m', v.task.lo, |v.task.whole|, Top(levels).lo, |Concat(Top(levels).parts)|);
  }

  /** With no step and no job left the task is done. */
  lemma CoreEmpty(m0: Mem, m: Mem, v: View)
    requires Core(m0, m, v, {}) && v.steps == [] && v.jobs == map[] && v.levels != [] && v.levels[0].next == 1
    ensures Done(m, v.task.lo, v.task.whole) && Within(m0, m, v.task.lo, |v.task.whole|)
  {
    hide At, Done, Within;
    WholeOffset(v.task.whole);
    assert PartOk(m, v.levels, v.jobs.Keys + {}, 0, 0);
  }

  // ------------------------------------------------------ giving work away

  function Freed(v: View, i: nat): (v': View)
    requires v.pop < |v.steps| && |v.levels| == |v.steps| + 1
  {
    v.(steps := WithIdx(v.steps, v.pop, i), levels := Free(v.levels, v.pop + 1), pop := v.pop + 1)
  }

  /** The lowest live level stops being one; its other parts are pending. */
  lemma CoreFree(m0: Mem, m: Mem, v: View, i: nat)
    requires Core(m0, m, v, {}) && !v.started && v.pop < |v.steps| && |v.levels| == |v.steps| + 1
    ensures Core(m0, m, Freed(v, i), Rest(v.levels, v.pop + 1))
  {
    hide At, Done, Within, JobMatches, RankedStep, Fits, OnTask, TaskOk, PartOk, Nested;
    assert v.jobs.Keys + {} == v.jobs.Keys;
    assert Describes(v.steps[v.pop], v.levels[v.pop + 1], false, false);
    LevelFreed(m, v.levels, v.jobs.Keys, v.pop + 1);
    StaticFree(v.task, v.steps, v.levels, v.jobs, v.pop, i);
  }

  /** A pending part becomes a job. */
  lemma CoreEnqueue(m0: Mem, m: Mem, v: View, pending: set<Child>, c: Child, j: Job)
    requires Core(m0, m, v, pending) && c in pending && !v.started
    requires |v.levels| == |v.steps| + 1 && 0 < c.level <= |v.steps|
    requires JobMatches(c, j, v.steps[c.level - 1], v.levels[c.level])
    ensures Core(m0, m, v.(jobs := v.jobs[c := j]), pending - {c})
  {
    hide Within, Chain, Static, JobMatches;
    var v' := v.(jobs := v.jobs[c := j]);
    StaticEnqueue(v.task, v.steps, v.levels, v.jobs, v.pop, c, j);
    assert v'.jobs.Keys + (pending - {c}) == v.jobs.Keys + pending;
  }

  /** A pending part is finished on the spot. */
  lemma CorePartDone(m0: Mem, m: Mem, m': Mem, v: View, pending: set<Child>, c: Child)
    requires Core(m0, m, v, pending) && c in pending && IsPart(v.levels, c.level, c.part)
    requires Within(m, m', Start(v.levels, c.level, c.part), |v.levels[c.level].parts[c.part]|)
    requires Done(m', Start(v.levels, c.level, c.part), v.levels[c.level].parts[c.part])
    ensures Core(m0, m', v, pending - {c})
  {
    hide Within, Chain, Static, Done;
    ChildFinished(m, m', v.levels, v.jobs.Keys + pending, c);
    WithinTask(m0, m, m', v, pending, c.level, c.part);
    assert v.jobs.Keys + (pending - {c}) == v.jobs.Keys + pending - {c};
  }

  /** A job has sorted its part. */
  lemma CoreJobDone(m0: Mem, m: Mem, m': Mem, v: View, pending: set<Child>, c: Child)
    requires Core(m0, m, v, pending) && c in v.jobs && !v.started && IsPart(v.levels, c.level, c.part)
    requires Within(m, m', Start(v.levels, c.level, c.part), |v.levels[c.level].parts[c.part]|)
    requires Done(m', Start(v.levels, c.level, c.part), v.levels[c.level].parts[c.part])
    ensures Core(m0, m', v.(jobs := v.jobs - {c}), pending)
  {
    hide Within, Chain, Static, Done;
    ChildFinished(m, m', v.levels, v.jobs.Keys + pending, c);
    StaticJobDone(v.task, v.steps, v.levels, v.jobs, v.pop, c);
    WithinTask(m0, m, m', v, pending, c.level, c.part);
    assert (v.jobs - {c}).Keys + pending == v.jobs.Keys + pending - {c};
  }

  ghost function PartOf(v: View, c: Child): (s: seq<Str>)
    requires IsPart(v.levels, c.level, c.part)
  {
    v.levels[c.level].parts[c.part]
  }

  /** A part that is a job or pending lies untouched at its place. */
  lemma Waiting(m0: Mem, m: Mem, v: View, pending: set<Child>, c: Child)
    requires Core(m0, m, v, pending) && (c in v.jobs || c in pending)
    ensures IsPart(v.levels, c.level, c.part)
    ensures At(Side(m, v.levels[c.level].flip), Start(v.levels, c.level, c.part), PartOf(v, c))
  {
    hide At, Done, Within, Static, Nested;
    assert c in v.jobs.Keys + pending;
    assert PartOk(m, v.levels, v.jobs.Keys + pending, c.level, c.part);
  }

  /** A job's area, and why the job is smaller than this one. */
  lemma JobReady(m0: Mem, m: Mem, v: View, pending: set<Child>, c: Child)
    requires Core(m0, m, v, pending) && c in v.jobs
    ensures IsPart(v.levels, c.level, c.part)
    ensures var j := v.jobs[c];
            && j.lo == Start(v.levels, c.level, c.part) && j.n == |PartOf(v, c)|
            && At(Side(m, j.flip), j.lo, PartOf(v, c)) && Sortable(v.task, PartOf(v, c), j.depth)
            && Potential.Rank(v.task.limit, v.task.size, j.depth, j.n) < TaskRank(v.task)
  {
    hide At, Within, Sortable, Chain, OnTask, TaskOk, RankedStep, Fits;
    Waiting(m0, m, v, pending, c);
    assert JobMatches(c, v.jobs[c], v.steps[c.level - 1], v.levels[c.level]);
    PartFacts(v.task, v.steps, v.levels, v.jobs, v.pop, v.started, c.level - 1, c.part);
  }
}
