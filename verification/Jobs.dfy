/** What holds between two rounds of a small-sort job, whatever was given away:
    its stacks describe the levels of sub-areas, its unfinished child jobs are
    exactly the parts of freed levels that nobody has sorted yet. */
module Jobs {
  import opened Areas
  import opened Levels
  import opened Potential
  import opened StableSort
  import opened Steps
  import opened Stores
  import opened Strings

  /** A child job in the queue. */
  datatype Job = Job(lo: nat, n: nat, flip: bool, depth: nat)

  /** The area a job was made for; no text is longer than limit, no area larger
      than size. */
  datatype Task = Task(lo: nat, flip: bool, depth: nat, whole: seq<Str>, limit: nat, size: nat)

  ghost predicate Short(s: seq<Str>, limit: nat) {
    forall x | x in s :: |x.text| <= limit
  }

  ghost function LongestText(s: seq<Str>): (n: nat)
    ensures Short(s, n)
  {
    if s == [] then 0
    else var m := LongestText(s[1..]);
      assert forall x | x in s :: x == s[0] || x in s[1..];
      if |s[0].text| > m then |s[0].text| else m
  }

  lemma DepthLimit(s: seq<Str>, depth: nat, limit: nat)
    requires s != [] && SharePrefix(s, depth) && Short(s, limit)
    ensures depth <= limit
  {
    assert Agree(s[0], s[0], depth) && s[0] in s;
  }

  ghost predicate TaskOk(t: Task) {
    Short(t.whole, t.limit) && SharePrefix(t.whole, t.depth) && |t.whole| <= t.size
  }

  function TaskRank(t: Task): (r: nat) {
    Rank(t.limit, t.size, t.depth, |t.whole|)
  }

  function StepRank(s: Step, t: Task): (r: nat) {
    Rank(t.limit, t.size, s.depth, s.n)
  }

  // ---------------------------------------------- stacks and their levels

  /** A step's idx counts its started parts, unless the level was freed. */
  ghost predicate Describes(s: Step, l: Level, freed: bool, started: bool) {
    && Fits(s, l.parts) && l.lo == s.lo && l.flip == PartFlip(s) && l.freed == freed
    && (!freed ==> s.idx == l.next + if started then 1 else 0)
  }

  /** started: the top step has counted a part that the levels have not. */
  ghost predicate Described(steps: seq<Step>, levels: seq<Level>, pop: nat, started: bool) {
    && |levels| == |steps| + 1 && pop <= |steps|
    && forall k | 0 <= k < |steps| :: Describes(steps[k], levels[k + 1], k < pop, started && k == |steps| - 1)
  }

  ghost predicate OnTask(levels: seq<Level>, t: Task) {
    levels != [] && levels[0].lo == t.lo && levels[0].flip == t.flip && levels[0].parts == [t.whole] && !levels[0].freed
  }

  ghost predicate RankedStep(s: Step, l: Level, t: Task) {
    Short(Concat(l.parts), t.limit) && |Concat(l.parts)| <= t.size && StepRank(s, t) <= TaskRank(t)
  }

  ghost predicate Ranked(steps: seq<Step>, levels: seq<Level>, t: Task) {
    |levels| == |steps| + 1 && forall k | 0 <= k < |steps| :: RankedStep(steps[k], levels[k + 1], t)
  }

  ghost predicate JobMatches(c: Child, j: Job, s: Step, l: Level) {
    && ValidStep(s) && c.part < |l.parts| == PartCount(s) && l.parts[c.part] != [] && !Finished(s, c.part)
    && j == Job(l.lo + Offset(l.parts, c.part), |l.parts[c.part]|, l.flip, PartDepth(s, c.part))
  }

  ghost predicate JobsMatch(jobs: map<Child, Job>, steps: seq<Step>, levels: seq<Level>) {
    |levels| == |steps| + 1 && forall c | c in jobs :: 0 < c.level <= |steps| && JobMatches(c, jobs[c], steps[c.level - 1], levels[c.level])
  }

  /** The part of the invariant that does not speak about memory. */
  ghost predicate Static(t: Task, steps: seq<Step>, levels: seq<Level>, jobs: map<Child, Job>, pop: nat, started: bool) {
    && TaskOk(t) && OnTask(levels, t) && Described(steps, levels, pop, started)
    && Ranked(steps, levels, t) && JobsMatch(jobs, steps, levels)
  }

  // ----------------------------------------------------------- counting idx

  /** Step k with another idx. */
  function WithIdx(steps: seq<Step>, k: nat, i: nat): (r: seq<Step>)
    requires k < |steps|
    ensures |r| == |steps|
  {
    steps[k := steps[k].(idx := i)]
  }

  /** s.idx++ at the top of the stack. */
  lemma StaticStart(t: Task, steps: seq<Step>, levels: seq<Level>, jobs: map<Child, Job>, pop: nat)
    requires Static(t, steps, levels, jobs, pop, false) && pop < |steps|
    ensures Static(t, WithIdx(steps, |steps| - 1, steps[|steps| - 1].idx + 1), levels, jobs, pop, true)
  {
    hide Fits, TaskOk, OnTask, RankedStep, JobMatches;
    var k := |steps| - 1;
    var steps' := WithIdx(steps, k, steps[k].idx + 1);
    assert Describes(steps[k], levels[k + 1], false, false);
    FitsAnyIdx(steps[k], steps[k].idx + 1, levels[k + 1].parts);
    forall i | 0 <= i < |steps| ensures RankedStep(steps'[i], levels[i + 1], t) {
      assert RankedStep(steps[i], levels[i + 1], t);
      RankedAnyIdx(steps[i], steps'[i].idx, levels[i + 1], t);
    }
    forall c | c in jobs ensures JobMatches(c, jobs[c], steps'[c.level - 1], levels[c.level]) {
      assert JobMatches(c, jobs[c], steps[c.level - 1], levels[c.level]);
      JobAnyIdx(c, jobs[c], steps[c.level - 1], steps'[c.level - 1].idx, levels[c.level]);
    }
  }

  lemma RankedAnyIdx(s: Step, i: nat, l: Level, t: Task)
    requires RankedStep(s, l, t)
    ensures RankedStep(s.(idx := i), l, t)
  {
  }

  lemma JobAnyIdx(c: Child, j: Job, s: Step, i: nat, l: Level)
    requires JobMatches(c, j, s, l)
    ensures JobMatches(c, j, s.(idx := i), l)
  {
  }

  // ------------------------------------------------ one part of the top level

  /** The next part of the top level goes from waiting to started. */
  lemma StaticAdvance(t: Task, steps: seq<Step>, levels: seq<Level>, jobs: map<Child, Job>, pop: nat, started: bool)
    requires Static(t, steps, levels, jobs, pop, started) && (started <==> steps != []) && (pop < |steps| || steps == [])
    ensures Static(t, steps, Advance(levels), jobs, pop, false)
  {
    hide Fits, TaskOk;
    var levels' := Advance(levels);
    forall k | 0 <= k < |steps|
      ensures Describes(steps[k], levels'[k + 1], k < pop, false) && RankedStep(steps[k], levels'[k + 1], t)
    {
      assert Describes(steps[k], levels[k + 1], k < pop, started && k == |steps| - 1);
      assert RankedStep(steps[k], levels[k + 1], t);
    }
    forall c | c in jobs ensures JobMatches(c, jobs[c], steps[c.level - 1], levels'[c.level]) {
      assert JobMatches(c, jobs[c], steps[c.level - 1], levels[c.level]);
    }
  }

  /** The level of a step that has just been made. */
  function NewLevel(s: Step, parts: seq<seq<Str>>): (l: Level) {
    Level(PartFlip(s), s.lo, parts, 0, false)
  }

  /** The next part of the top level gets a step of its own. */
  lemma StaticPush(t: Task, steps: seq<Step>, levels: seq<Level>, jobs: map<Child, Job>, pop: nat, started: bool,
                   s: Step, parts: seq<seq<Str>>)
    requires Static(t, steps, levels, jobs, pop, started) && (started <==> steps != []) && (pop < |steps| || steps == [])
    requires Fits(s, parts) && s.idx == 0 && Short(Concat(parts), t.limit) && |Concat(parts)| <= t.size
    requires StepRank(s, t) <= TaskRank(t)
    ensures Static(t, steps + [s], Advance(levels) + [NewLevel(s, parts)], jobs, pop, false)
  {
    hide Fits, TaskOk, RankedStep, JobMatches, OnTask, Concat;
    StaticAdvance(t, steps, levels, jobs, pop, started);
    var steps', levels' := steps + [s], Advance(levels) + [NewLevel(s, parts)];
    forall k | 0 <= k < |steps'|
      ensures Describes(steps'[k], levels'[k + 1], k < pop, false) && RankedStep(steps'[k], levels'[k + 1], t)
    {
      if k < |steps| {
        assert Describes(steps[k], Advance(levels)[k + 1], k < pop, false);
        assert RankedStep(steps[k], Advance(levels)[k + 1], t);
      } else {
        RankedNew(s, parts, t);
      }
    }
    forall c | c in jobs ensures JobMatches(c, jobs[c], steps'[c.level - 1], levels'[c.level]) {
      assert JobMatches(c, jobs[c], steps[c.level - 1], Advance(levels)[c.level]);
    }
    OnTaskLonger(Advance(levels), levels', t);
  }

  lemma RankedNew(s: Step, parts: seq<seq<Str>>, t: Task)
    requires Short(Concat(parts), t.limit) && |Concat(parts)| <= t.size && StepRank(s, t) <= TaskRank(t)
    ensures RankedStep(s, NewLevel(s, parts), t)
  {
  }

  lemma OnTaskLonger(levels: seq<Level>, levels': seq<Level>, t: Task)
    requires OnTask(levels, t) && levels' != [] && levels'[0] == levels[0]
    ensures OnTask(levels', t)
  {
  }

  /** The top level was finished and left. */
  lemma StaticPop(t: Task, steps: seq<Step>, levels: seq<Level>, jobs: map<Child, Job>, pop: nat, started: bool)
    requires Static(t, steps, levels, jobs, pop, started) && steps != [] && forall c | c in jobs :: c.level < |steps|
    ensures Static(t, steps[..|steps| - 1], levels[..|steps|], jobs, if pop < |steps| then pop else |steps| - 1, false)
  {
    hide Fits, TaskOk, RankedStep, JobMatches, OnTask;
    var pop' := if pop < |steps| then pop else |steps| - 1;
    var steps', levels' := steps[..|steps| - 1], levels[..|steps|];
    forall k | 0 <= k < |steps'|
      ensures Describes(steps'[k], levels'[k + 1], k < pop', false) && RankedStep(steps'[k], levels'[k + 1], t)
    {
      assert Describes(steps[k], levels[k + 1], k < pop, started && k == |steps| - 1);
      assert RankedStep(steps[k], levels[k + 1], t);
    }
    forall c | c in jobs ensures JobMatches(c, jobs[c], steps'[c.level - 1], levels'[c.level]) {
      assert JobMatches(c, jobs[c], steps[c.level - 1], levels[c.level]);
    }
    OnTaskLonger(levels, levels', t);
  }

  /** The lowest live level is given away. */
  lemma StaticFree(t: Task, steps: seq<Step>, levels: seq<Level>, jobs: map<Child, Job>, pop: nat, i: nat)
    requires Static(t, steps, levels, jobs, pop, false) && pop < |steps|
    ensures Static(t, WithIdx(steps, pop, i), Free(levels, pop + 1), jobs, pop + 1, false)
  {
    hide Fits, TaskOk;
    var steps', levels' := WithIdx(steps, pop, i), Free(levels, pop + 1);
    forall k | 0 <= k < |steps'|
      ensures Describes(steps'[k], levels'[k + 1], k < pop + 1, false) && RankedStep(steps'[k], levels'[k + 1], t)
    {
      assert Describes(steps[k], levels[k + 1], k < pop, false);
      assert RankedStep(steps[k], levels[k + 1], t);
      FitsAnyIdx(steps[k], i, levels[k + 1].parts);
    }
    forall c | c in jobs ensures JobMatches(c, jobs[c], steps'[c.level - 1], levels'[c.level]) {
      assert JobMatches(c, jobs[c], steps[c.level - 1], levels[c.level]);
      JobAnyIdx(c, jobs[c], steps[c.level - 1], i, levels[c.level]);
    }
  }

  /** Enqueue() of part j of a freed level. */
  lemma StaticEnqueue(t: Task, steps: seq<Step>, levels: seq<Level>, jobs: map<Child, Job>, pop: nat, c: Child, j: Job)
    requires Static(t, steps, levels, jobs, pop, false) && 0 < c.level <= |steps|
    requires JobMatches(c, j, steps[c.level - 1], levels[c.level])
    ensures Static(t, steps, levels, jobs[c := j], pop, false)
  {
    hide TaskOk, OnTask, Described, Ranked, JobMatches;
  }

  lemma StaticJobDone(t: Task, steps: seq<Step>, levels: seq<Level>, jobs: map<Child, Job>, pop: nat, c: Child)
    requires Static(t, steps, levels, jobs, pop, false)
    ensures Static(t, steps, levels, jobs - {c}, pop, false)
  {
    hide TaskOk, OnTask, Described, Ranked, JobMatches;
  }

  // --------------------------------------------------- what a part may be

  /** An area that may be sorted at this depth, within the rank of its task. */
  ghost predicate Sortable(t: Task, s: seq<Str>, depth: nat) {
    Short(s, t.limit) && |s| <= t.size && SharePrefix(s, depth)
  }

  lemma ShortPart(parts: seq<seq<Str>>, j: nat, limit: nat)
    requires Short(Concat(parts), limit) && j < |parts|
    ensures Short(parts[j], limit) && |parts[j]| <= |Concat(parts)|
  {
    hide Concat, Offset;
    forall x | x in parts[j] ensures |x.text| <= limit {
      PartMember(parts, j, x);
    }
    OffsetNext(parts, j);
    OffsetMono(parts, j + 1, |parts|);
  }

  lemma PartRank(t: Task, s: Step, part: seq<Str>, depth: nat)
    requires part != [] && Sortable(t, part, depth) && (depth > s.depth || (depth == s.depth && |part| < s.n))
    ensures Rank(t.limit, t.size, depth, |part|) < StepRank(s, t)
  {
    assert Agree(part[0], part[0], depth);
    assert part[0] in part;
    RankLess(t.limit, t.size, s.depth, s.n, depth, |part|);
  }

  /** Part j of step k. */
  lemma PartFacts(t: Task, steps: seq<Step>, levels: seq<Level>, jobs: map<Child, Job>, pop: nat, started: bool, k: nat, j: nat)
    requires Static(t, steps, levels, jobs, pop, started) && k < |steps| && j < |levels[k + 1].parts|
    ensures ValidStep(steps[k]) && |levels[k + 1].parts| == PartCount(steps[k])
    ensures levels[k + 1].lo == steps[k].lo && levels[k + 1].flip == PartFlip(steps[k])
    ensures var s, part := steps[k], levels[k + 1].parts[j];
            && PartOffset(s, j) == Offset(levels[k + 1].parts, j) && PartSize(s, j) == |part| && s.n == |Concat(levels[k + 1].parts)|
            && (part != [] ==>
                 if Finished(s, j) then SameTexts(part, FinishedLcp(s, j))
                 else Sortable(t, part, PartDepth(s, j)) && Rank(t.limit, t.size, PartDepth(s, j), |part|) < StepRank(s, t) <= TaskRank(t))
  {
    hide SharePrefix, SameTexts, Keyed, JobMatches, TaskOk, OnTask, Short, Concat, Offset, Rank;
    var s, l := steps[k], levels[k + 1];
    assert Describes(s, l, k < pop, started && k == |steps| - 1);
    assert RankedStep(s, l, t);
    ShortPart(l.parts, j, t.limit);
    if l.parts[j] != [] && !Finished(s, j) {
      PartRank(t, s, l.parts[j], PartDepth(s, j));
    }
  }
}
