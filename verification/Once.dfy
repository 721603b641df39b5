/** How often things happen in a sorting job: every sub-area of every level of the
    stacks is finished exactly once, and the LCPs of every level are calculated exactly
    once, after all its sub-areas, whatever is given away at whatever moment
    (src/parallel/bingmann-parallel_sample_sort.hpp, SmallsortJob). */
module Once {
  import opened Areas
  import opened Cores
  import opened Jobs
  import opened Levels
  import opened Steps
  import opened Strings

  /** Part of the level that was made as number id. */
  datatype Slot = Slot(id: nat, part: nat)

  /** The levels and child jobs, and a record of what has happened: how many levels
      were made, how many parts each had, which parts were finished and for which
      levels the LCPs were calculated. */
  datatype Ledger = Ledger(levels: seq<Level>, kids: set<Child>, pending: set<Child>, ids: seq<nat>, made: nat,
                           size: map<nat, nat>, finished: multiset<Slot>, lcps: multiset<nat>)

  /** What can happen. OnSpot: the next part of the top level is sorted, filled or
      empty. Push: it gets a level of its own. Leave: calculate_lcp() of the top level,
      live or given away. FreeLevel: a level is given away. Give: a pending part becomes
      a child job. PartDone: it is finished on the spot. JobDone: a child job is. */
  datatype Event = OnSpot | Push(level: Level) | Leave | FreeLevel(k: nat) | Give(c: Child) | PartDone(c: Child) | JobDone(c: Child)

  predicate CanStart(l: Ledger) {
    l.levels != [] && !Top(l.levels).freed && Top(l.levels).next < |Top(l.levels).parts|
  }

  predicate Enabled(l: Ledger, e: Event) {
    match e
    case OnSpot => CanStart(l)
    case Push(new1) => CanStart(l) && new1.next == 0 && !new1.freed
    case Leave =>
      && |l.levels| > 1 && (Top(l.levels).freed || Top(l.levels).next == |Top(l.levels).parts|)
      && forall c | c in l.kids + l.pending :: c.level < |l.levels| - 1
    case FreeLevel(k) => 0 < k < |l.levels| && !l.levels[k].freed
    case Give(c) => c in l.pending
    case PartDone(c) => c in l.pending
    case JobDone(c) => c in l.kids
  }

  ghost function Finish(l: Ledger, k: nat, j: nat): (l': Ledger)
    requires k < |l.ids|
  {
    l.(finished := l.finished + multiset{Slot(l.ids[k], j)})
  }

  ghost function Apply(l: Ledger, e: Event): (l': Ledger)
    requires Enabled(l, e) && Shaped(l)
  {
    var n := |l.levels| - 1;
    match e
    case OnSpot => Finish(l, n, Top(l.levels).next).(levels := Advance(l.levels))
    case Push(new1) =>
      l.(levels := Advance(l.levels) + [new1], ids := l.ids + [l.made], made := l.made + 1, size := l.size[l.made := |new1.parts|])
    case Leave =>
      Finish(l, n - 1, l.levels[n - 1].next - 1).(levels := l.levels[..n], ids := l.ids[..n], lcps := l.lcps + multiset{l.ids[n]})
    case FreeLevel(k) => l.(levels := Free(l.levels, k), pending := l.pending + Rest(l.levels, k))
    case Give(c) => l.(pending := l.pending - {c}, kids := l.kids + {c})
    case PartDone(c) => Finish(l, c.level, c.part).(pending := l.pending - {c})
    case JobDone(c) => Finish(l, c.level, c.part).(kids := l.kids - {c})
  }

  // ------------------------------------------------------------- invariant

  ghost predicate Shaped(l: Ledger) {
    && |l.ids| == |l.levels| > 0 && (forall k | 0 <= k < |l.levels| :: l.levels[k].next <= |l.levels[k].parts|)
    && (forall k: nat | k + 1 < |l.levels| :: l.levels[k].next > 0)
    && l.kids !! l.pending
    && (forall c | c in l.kids + l.pending :: IsPart(l.levels, c.level, c.part) && l.levels[c.level].freed && l.levels[c.level].next <= c.part)
  }

  /** Every level has a number of its own. */
  ghost predicate Numbered(l: Ledger) {
    && |l.ids| == |l.levels| && (forall i, k | 0 <= i < k < |l.ids| :: l.ids[i] < l.ids[k])
    && (forall k | 0 <= k < |l.ids| :: l.ids[k] < l.made)
    && (forall id | 0 <= id < l.made :: id in l.size)
    && (forall k | 0 <= k < |l.ids| :: l.ids[k] in l.size && l.size[l.ids[k]] == |l.levels[k].parts|)
  }

  /** Whether part j of live level k has been finished. */
  ghost predicate Over(l: Ledger, k: nat, j: nat)
    requires IsPart(l.levels, k, j)
  {
    !Active(l.levels, k, j) && Child(k, j) !in l.kids + l.pending && (j < l.levels[k].next || l.levels[k].freed)
  }

  ghost predicate Exact(l: Ledger, k: nat, j: nat)
    requires IsPart(l.levels, k, j) && |l.ids| == |l.levels|
  {
    l.finished[Slot(l.ids[k], j)] == if Over(l, k, j) then 1 else 0
  }

  ghost predicate AllExact(l: Ledger)
    requires |l.ids| == |l.levels|
  {
    forall k: nat, j: nat | IsPart(l.levels, k, j) :: Exact(l, k, j)
  }

  /** A level that was left: all its parts were finished once, its LCPs calculated once. */
  ghost predicate Retired(l: Ledger, id: nat)
    requires id in l.size
  {
    l.lcps[id] == 1 && forall j: nat | j < l.size[id] :: l.finished[Slot(id, j)] == 1
  }

  ghost predicate PastDone(l: Ledger)
    requires Numbered(l)
  {
    forall id | 0 <= id < l.made && id !in l.ids :: Retired(l, id)
  }

  ghost predicate LiveOpen(l: Ledger) {
    forall id | id in l.ids :: l.lcps[id] == 0
  }

  ghost predicate FutureBlank(l: Ledger) {
    (forall id: nat | id >= l.made :: l.lcps[id] == 0) && forall x: Slot | x.id >= l.made :: l.finished[x] == 0
  }

  ghost predicate Inv(l: Ledger) {
    Shaped(l) && Numbered(l) && AllExact(l) && PastDone(l) && LiveOpen(l) && FutureBlank(l)
  }

  predicate IsBottom(l: Level) {
    |l.parts| == 1 && !l.freed
  }

  /** The job starts with its whole area as the only part of a bottom level. */
  ghost predicate Init(l: Ledger) {
    && |l.levels| == 1 && IsBottom(l.levels[0]) && l.levels[0].next == 0
    && l == Ledger(l.levels, {}, {}, [0], 1, map[0 := 1], multiset{}, multiset{})
  }

  lemma InitInv(l: Ledger)
    requires Init(l)
    ensures Inv(l)
  {
  }

  lemma OnSpotInv(l: Ledger)
    requires Inv(l) && Enabled(l, OnSpot)
    ensures Inv(Apply(l, OnSpot))
  {
    var l' := Apply(l, OnSpot);
    NumbersApart(l);
    forall k: nat, j: nat | IsPart(l'.levels, k, j) ensures Exact(l', k, j) {
      assert Exact(l, k, j);
    }
    assert forall id | 0 <= id < l'.made && id !in l'.ids :: Retired(l, id) ==> Retired(l', id);
  }

  lemma NumbersApart(l: Ledger)
    requires Numbered(l)
    ensures forall i, k | 0 <= i < |l.ids| && 0 <= k < |l.ids| && i != k :: l.ids[i] != l.ids[k]
  {
    forall i, k | 0 <= i < |l.ids| && 0 <= k < |l.ids| && i != k ensures l.ids[i] != l.ids[k] {
      if i < k { assert l.ids[i] < l.ids[k]; } else { assert l.ids[k] < l.ids[i]; }
    }
  }

  lemma PushInv(l: Ledger, e: Event)
    requires Inv(l) && e.Push? && Enabled(l, e)
    ensures Inv(Apply(l, e))
  {
    var l' := Apply(l, e);
    forall k: nat, j: nat | IsPart(l'.levels, k, j) ensures Exact(l', k, j) {
      if k < |l.levels| { assert Exact(l, k, j); }
    }
    forall id | 0 <= id < l'.made && id !in l'.ids ensures Retired(l', id) {
      assert l.made in l'.ids by { assert l'.ids[|l.ids|] == l.made; }
      assert forall x | x in l.ids :: x in l'.ids;
      assert Retired(l, id);
    }
  }

  /** When the LCPs of a level are calculated, all its parts have been finished once. */
  lemma LeaveInv(l: Ledger)
    requires Inv(l) && Enabled(l, Leave)
    ensures var n := |l.levels| - 1; l.lcps[l.ids[n]] == 0 && forall j: nat | j < |l.levels[n].parts| :: l.finished[Slot(l.ids[n], j)] == 1
    ensures Inv(Apply(l, Leave))
  {
    var n := |l.levels| - 1;
    var l' := Apply(l, Leave);
    NumbersApart(l);
    assert l.ids[n] in l.ids;
    forall j: nat | j < |l.levels[n].parts| ensures l.finished[Slot(l.ids[n], j)] == 1 {
      assert Exact(l, n, j);
    }
    forall k: nat, j: nat | IsPart(l'.levels, k, j) ensures Exact(l', k, j) {
      assert Exact(l, k, j);
    }
    LeaveRetires(l);
  }

  lemma LeaveRetires(l: Ledger)
    requires Inv(l) && Enabled(l, Leave)
    requires var n := |l.levels| - 1; forall j: nat | j < |l.levels[n].parts| :: l.finished[Slot(l.ids[n], j)] == 1
    ensures var l' := Apply(l, Leave); Numbered(l') && PastDone(l') && LiveOpen(l')
  {
    var n := |l.levels| - 1;
    var l' := Apply(l, Leave);
    assert l.ids[n] in l.ids && l.ids[n - 1] < l.ids[n];
    forall id | 0 <= id < l'.made && id !in l'.ids ensures Retired(l', id) {
      if id != l.ids[n] {
        NotInInit(l.ids, id);
        assert Retired(l, id) && l.ids[n - 1] in l.ids;
      }
    }
    forall id | id in l'.ids ensures l'.lcps[id] == 0 {
      var k :| 0 <= k < n && l'.ids[k] == id;
      assert l.ids[k] < l.ids[n] && l.ids[k] in l.ids;
    }
  }

  lemma NotInInit(s: seq<nat>, x: nat)
    requires s != [] && x !in s[..|s| - 1] && x != s[|s| - 1]
    ensures x !in s
  {
    assert s == s[..|s| - 1] + [s[|s| - 1]];
  }

  lemma FreeInv(l: Ledger, e: Event)
    requires Inv(l) && e.FreeLevel? && Enabled(l, e)
    ensures Inv(Apply(l, e))
  {
    var l' := Apply(l, e);
    forall k: nat, j: nat | IsPart(l'.levels, k, j) ensures Exact(l', k, j) {
      assert Exact(l, k, j);
      assert Child(k, j) in Rest(l.levels, e.k) <==> k == e.k && l.levels[k].next <= j;
    }
    assert forall id | 0 <= id < l'.made && id !in l'.ids :: Retired(l, id) ==> Retired(l', id);
  }

  lemma GiveInv(l: Ledger, e: Event)
    requires Inv(l) && e.Give? && Enabled(l, e)
    ensures Inv(Apply(l, e))
  {
    var l' := Apply(l, e);
    assert l'.kids + l'.pending == l.kids + l.pending;
    forall k: nat, j: nat | IsPart(l'.levels, k, j) ensures Exact(l', k, j) {
      assert Exact(l, k, j);
    }
    assert forall id | 0 <= id < l'.made && id !in l'.ids :: Retired(l, id) ==> Retired(l', id);
  }

  lemma DoneInv(l: Ledger, e: Event)
    requires Inv(l) && (e.PartDone? || e.JobDone?) && Enabled(l, e)
    ensures Inv(Apply(l, e))
  {
    var l' := Apply(l, e);
    NumbersApart(l);
    assert l'.kids + l'.pending == l.kids + l.pending - {e.c};
    assert e.c in l.kids + l.pending;
    forall k: nat, j: nat | IsPart(l'.levels, k, j) ensures Exact(l', k, j) {
      assert Exact(l, k, j);
    }
    assert forall id | 0 <= id < l'.made && id !in l'.ids :: Retired(l, id) ==> Retired(l', id);
  }

  lemma StepInv(l: Ledger, e: Event)
    requires Inv(l) && Enabled(l, e)
    ensures Inv(Apply(l, e))
  {
    hide Inv, Apply, Enabled;
    match e
    case OnSpot => OnSpotInv(l);
    case Push(_) => PushInv(l, e);
    case Leave => LeaveInv(l);
    case FreeLevel(_) => FreeInv(l, e);
    case Give(_) => GiveInv(l, e);
    case PartDone(_) => DoneInv(l, e);
    case JobDone(_) => DoneInv(l, e);
  }

  // ------------------------------------------------------------------ runs

  ghost predicate Happens(l: Ledger, e: Event, l': Ledger) {
    Shaped(l) && Enabled(l, e) && l' == Apply(l, e)
  }

  ghost predicate Next(l: Ledger, l': Ledger) {
    exists e: Event :: Happens(l, e, l')
  }

  ghost predicate IsRun(r: seq<Ledger>) {
    r != [] && Init(r[0]) && forall i: nat | i + 1 < |r| :: Next(r[i], r[i + 1])
  }

  lemma {:induction false} RunInv(r: seq<Ledger>, i: nat)
    requires IsRun(r) && i < |r|
    ensures Inv(r[i])
  {
    hide Inv, Apply, Enabled;
    if i == 0 {
      InitInv(r[0]);
    } else {
      RunInv(r, i - 1);
      assert Next(r[i - 1], r[(i - 1) + 1]);
      var e: Event :| Happens(r[i - 1], e, r[i]);
      StepInv(r[i - 1], e);
    }
  }

  /** At no time has a part been finished twice or have LCPs been calculated twice. */
  lemma AtMostOnce(r: seq<Ledger>, i: nat, k: nat, j: nat)
    requires IsRun(r) && i < |r| && IsPart(r[i].levels, k, j) && k < |r[i].ids|
    ensures r[i].finished[Slot(r[i].ids[k], j)] <= 1 && r[i].lcps[r[i].ids[k]] == 0
  {
    RunInv(r, i);
    assert Exact(r[i], k, j) && r[i].ids[k] in r[i].ids;
  }

  /** Once the job is complete, every part of every level that was ever made has been
      finished exactly once, and so has the calculation of every level's LCPs. */
  lemma ExactlyOnce(r: seq<Ledger>, i: nat, id: nat)
    requires IsRun(r) && i < |r| && 0 < id < r[i].made && |r[i].levels| == 1
    ensures id in r[i].size && r[i].lcps[id] == 1 && forall j: nat | j < r[i].size[id] :: r[i].finished[Slot(id, j)] == 1
  {
    BottomStays(r, i);
    RunInv(r, i);
    assert Retired(r[i], id);
  }

  /** And so has the job's whole area. */
  lemma WholeOnce(r: seq<Ledger>, i: nat)
    requires IsRun(r) && i < |r| && |r[i].levels| == 1 && r[i].levels[0].next == 1
    ensures r[i].finished[Slot(0, 0)] == 1
  {
    BottomStays(r, i);
    RunInv(r, i);
    assert Exact(r[i], 0, 0);
  }

  lemma {:induction false} BottomStays(r: seq<Ledger>, i: nat)
    requires IsRun(r) && i < |r|
    ensures |r[i].ids| == |r[i].levels| > 0 && r[i].ids[0] == 0 && IsBottom(r[i].levels[0])
  {
    hide Inv;
    if i > 0 {
      BottomStays(r, i - 1);
      assert Next(r[i - 1], r[(i - 1) + 1]);
      var e: Event :| Happens(r[i - 1], e, r[i]);
    }
  }

  // --------------------------------------------------- the history of a job

  function Last(r: seq<Ledger>): (l: Ledger)
    requires r != []
  {
    r[|r| - 1]
  }

  /** The history is a run of events that ends with these levels, child jobs and
      pending parts. */
  ghost predicate Tracks(r: seq<Ledger>, levels: seq<Level>, kids: set<Child>, pending: set<Child>) {
    IsRun(r) && Last(r).levels == levels && Last(r).kids == kids && Last(r).pending == pending
  }

  /** Event e is recorded, if it can happen. */
  ghost function Record(r: seq<Ledger>, e: Event): (r': seq<Ledger>) {
    if r != [] && Shaped(Last(r)) && Enabled(Last(r), e) then r + [Apply(Last(r), e)] else r
  }

  function Started(bottom: Level): (r: seq<Ledger>) {
    [Ledger([bottom], {}, {}, [0], 1, map[0 := 1], multiset{}, multiset{})]
  }

  /** The job is complete: every part of every level that was made, and the whole area,
      was finished exactly once, and so was the calculation of every level's LCPs. */
  ghost predicate AllOnce(r: seq<Ledger>) {
    && IsRun(r) && Last(r).finished[Slot(0, 0)] == 1
    && forall id | 0 < id < Last(r).made ::
         id in Last(r).size && Last(r).lcps[id] == 1 && forall j: nat | j < Last(r).size[id] :: Last(r).finished[Slot(id, j)] == 1
  }

  lemma TrackStart(bottom: Level)
    requires IsBottom(bottom) && bottom.next == 0
    ensures Tracks(Started(bottom), [bottom], {}, {})
  {
  }

  lemma Recorded(r: seq<Ledger>, e: Event)
    requires IsRun(r) && Enabled(Last(r), e)
    ensures Shaped(Last(r)) && Record(r, e) == r + [Apply(Last(r), e)] && IsRun(Record(r, e))
  {
    hide Apply, Enabled, Init;
    RunInv(r, |r| - 1);
    var r' := Record(r, e);
    assert Happens(Last(r), e, Last(r'));
    forall i: nat | i + 1 < |r'| ensures Next(r'[i], r'[i + 1]) {
      if i + 1 < |r| { assert Next(r[i], r[i + 1]); }
    }
  }

  /** Cores.CoreSorted: the next part was sorted on the spot. */
  lemma TrackSorted(m0: Mem, m: Mem, v: View, r: seq<Ledger>)
    requires Core(m0, m, v, {}) && AtPart(v) && Tracks(r, v.levels, v.jobs.Keys, {})
    ensures Tracks(Record(r, OnSpot), Advance(v.levels), v.jobs.Keys, {})
  {
    hide Core, IsRun;
    TopLive(m0, m, v);
    Recorded(r, OnSpot);
  }

  /** Cores.CorePush: the next part got a level of its own. */
  lemma TrackPush(m0: Mem, m: Mem, v: View, r: seq<Ledger>, s: Step, parts: seq<seq<Str>>)
    requires Core(m0, m, v, {}) && AtPart(v) && Tracks(r, v.levels, v.jobs.Keys, {})
    ensures Tracks(Record(r, Push(NewLevel(s, parts))), Advance(v.levels) + [NewLevel(s, parts)], v.jobs.Keys, {})
  {
    hide Core, IsRun;
    TopLive(m0, m, v);
    Recorded(r, Push(NewLevel(s, parts)));
  }

  /** Cores.CoreFinished: the top level was left after calculate_lcp(). */
  lemma TrackLeave(v: View, r: seq<Ledger>)
    requires TopIdle(v) && Tracks(r, v.levels, v.jobs.Keys, {})
    ensures Tracks(Record(r, Leave), LeaveTop(v).levels, v.jobs.Keys, {})
  {
    hide IsRun;
    Recorded(r, Leave);
  }

  /** Cores.CoreFree: the lowest live level was given away. */
  lemma TrackFree(m0: Mem, m: Mem, v: View, r: seq<Ledger>)
    requires Core(m0, m, v, {}) && !v.started && v.pop < |v.steps| && Tracks(r, v.levels, v.jobs.Keys, {})
    ensures |v.levels| == |v.steps| + 1
    ensures Tracks(Record(r, FreeLevel(v.pop + 1)), Free(v.levels, v.pop + 1), v.jobs.Keys, Rest(v.levels, v.pop + 1))
  {
    hide IsRun, Chain, Within, Fits, JobMatches, RankedStep, OnTask, TaskOk;
    assert Describes(v.steps[v.pop], v.levels[v.pop + 1], false, false);
    Recorded(r, FreeLevel(v.pop + 1));
  }

  /** Cores.CoreEnqueue: a pending part became a child job. */
  lemma TrackGive(r: seq<Ledger>, levels: seq<Level>, jobs: map<Child, Job>, pending: set<Child>, c: Child, j: Job)
    requires Tracks(r, levels, jobs.Keys, pending) && c in pending
    ensures Tracks(Record(r, Give(c)), levels, jobs[c := j].Keys, pending - {c})
  {
    hide IsRun;
    Recorded(r, Give(c));
  }

  /** Cores.CorePartDone: a pending part was finished on the spot. */
  lemma TrackPartDone(r: seq<Ledger>, levels: seq<Level>, kids: set<Child>, pending: set<Child>, c: Child)
    requires Tracks(r, levels, kids, pending) && c in pending
    ensures Tracks(Record(r, PartDone(c)), levels, kids, pending - {c})
  {
    hide IsRun;
    Recorded(r, PartDone(c));
  }

  /** Cores.CoreJobDone: a child job was finished. */
  lemma TrackJobDone(r: seq<Ledger>, levels: seq<Level>, jobs: map<Child, Job>, pending: set<Child>, c: Child)
    requires Tracks(r, levels, jobs.Keys, pending) && c in jobs
    ensures Tracks(Record(r, JobDone(c)), levels, (jobs - {c}).Keys, pending)
  {
    hide IsRun;
    Recorded(r, JobDone(c));
    assert (jobs - {c}).Keys == jobs.Keys - {c};
  }

  /** No level and no child job is left, and the area was started. */
  lemma TrackEnd(r: seq<Ledger>, levels: seq<Level>, jobs: map<Child, Job>)
    requires Tracks(r, levels, jobs.Keys, {}) && jobs == map[] && |levels| == 1 && levels[0].next == 1
    ensures AllOnce(r)
  {
    hide Next, Init;
    var n := |r| - 1;
    WholeOnce(r, n);
    forall id | 0 < id < Last(r).made
      ensures id in Last(r).size && Last(r).lcps[id] == 1 && forall j: nat | j < Last(r).size[id] :: Last(r).finished[Slot(id, j)] == 1
    {
      ExactlyOnce(r, n, id);
    }
  }
}
