/** The tree of sorting steps joined by atomic counters: SortStep::substep_add,
    substep_notify_done and substep_all_done
    (src/parallel/bingmann-parallel_sample_sort.hpp), under every interleaving. */
module Completion {

  /** Enqueued: the job has not started. Running: the job, or the code that makes
      sub-jobs, holds a handle on its own step. Waiting: only sub-steps are left.
      Finishing: the counter has reached zero, substep_all_done() is due.
      Finished: substep_all_done() has run, the parent is not notified yet. */
  datatype Phase = Enqueued | Running | Waiting | Finishing | Finished | Gone

  /** depth is the distance to the root; runs counts the executions of
      substep_all_done(). The counter is an integer
      here, so that not falling below zero is a theorem. */
  datatype Node = Node(parent: nat, depth: nat, phase: Phase, working: int, runs: nat)

  const ROOT: nat := 0

  type State = map<nat, Node>

  ghost predicate Init(s: State) {
    s == map[ROOT := Node(ROOT, 0, Enqueued, 0, 0)]
  }

  /** --m_substep_working of x, and what the caller does when it becomes zero. */
  function Decrement(s: State, x: nat): (s': State)
    requires x in s
  {
    var w := s[x].working - 1;
    s[x := s[x].(working := w, phase := if w == 0 then Finishing else s[x].phase)]
  }

  /** The job of x starts and takes a handle: substep_add(). */
  ghost predicate Start(s: State, s': State, x: nat) {
    x in s && s[x].phase.Enqueued? && s' == s[x := s[x].(phase := Running, working := s[x].working + 1)]
  }

  /** The running job of x registers and enqueues a new sub-step y. */
  ghost predicate Spawn(s: State, s': State, x: nat, y: nat) {
    && x in s && s[x].phase.Running? && y !in s
    && s' == s[x := s[x].(working := s[x].working + 1)][y := Node(x, s[x].depth + 1, Enqueued, 0, 0)]
  }

  /** The job of x is done and gives its handle back: substep_notify_done(). */
  ghost predicate Release(s: State, s': State, x: nat) {
    x in s && s[x].phase.Running? && s' == Decrement(s[x := s[x].(phase := Waiting)], x)
  }

  /** substep_all_done() of x. */
  ghost predicate AllDone(s: State, s': State, x: nat) {
    x in s && s[x].phase.Finishing? && s' == s[x := s[x].(phase := Finished, runs := s[x].runs + 1)]
  }

  /** At its end, the parent is notified and x is deleted. */
  ghost predicate Notify(s: State, s': State, x: nat) {
    x in s && x != ROOT && s[x].phase.Finished? && s[x].parent in s
    && s' == Decrement(s[x := s[x].(phase := Gone)], s[x].parent)
  }

  ghost predicate Progress(s: State, s': State, x: nat) {
    Start(s, s', x) || Release(s, s', x) || AllDone(s, s', x) || Notify(s, s', x)
  }

  ghost predicate Next(s: State, s': State) {
    (exists x :: Progress(s, s', x)) || exists x, y :: Spawn(s, s', x, y)
  }

  // ------------------------------------------------------------ invariant

  ghost function LiveChildren(s: State, x: nat): (c: set<nat>) {
    set y | y in s && y != ROOT && s[y].parent == x && !s[y].phase.Gone?
  }

  /** The counter of a node with c live children is exact, and phases follow it. */
  predicate Exact(n: Node, c: nat) {
    && n.working == c + (if n.phase.Running? then 1 else 0)
    && n.runs == (if n.phase.Finished? || n.phase.Gone? then 1 else 0)
    && (n.phase.Enqueued? || n.phase.Finishing? || n.phase.Finished? || n.phase.Gone? ==> n.working == 0)
    && (n.phase.Waiting? ==> n.working > 0)
  }

  ghost predicate NodeOk(s: State, x: nat)
    requires x in s
  {
    Exact(s[x], |LiveChildren(s, x)|)
  }

  /** Parents were there first. */
  ghost predicate Parents(s: State) {
    ROOT in s && forall y | y in s && y != ROOT :: s[y].parent in s && s[y].depth == s[s[y].parent].depth + 1
  }

  /** What has not gone has a parent that has started and not gone. */
  ghost predicate Anchored(s: State, y: nat)
    requires Parents(s) && y in s
  {
    y != ROOT && !s[y].phase.Gone? ==> !s[s[y].parent].phase.Gone? && !s[s[y].parent].phase.Enqueued?
  }

  ghost predicate Rooted(s: State) {
    Parents(s) && !s[ROOT].phase.Gone? && forall y | y in s :: Anchored(s, y)
  }

  ghost predicate Inv(s: State) {
    Rooted(s) && forall x | x in s :: NodeOk(s, x)
  }

  lemma InitInv(s: State)
    requires Init(s)
    ensures Inv(s)
  {
    assert LiveChildren(s, ROOT) == {};
  }

  lemma NoChildren(s: State, x: nat)
    requires x in s && NodeOk(s, x) && (s[x].phase.Finishing? || s[x].phase.Finished? || s[x].phase.Gone?)
    ensures LiveChildren(s, x) == {}
  {
  }

  /** One node changes, and neither appears nor goes. */
  lemma TouchInv(s: State, x: nat, n: Node)
    requires Inv(s) && x in s && n.parent == s[x].parent && n.depth == s[x].depth && !s[x].phase.Gone? && !n.phase.Gone? && !n.phase.Enqueued?
    requires Exact(n, |LiveChildren(s, x)|)
    ensures Inv(s[x := n])
  {
    TouchRooted(s, x, n);
    hide Rooted, LiveChildren, Exact;
    var s' := s[x := n];
    forall z | z in s' ensures NodeOk(s', z) {
      assert NodeOk(s, z);
      TouchChildren(s, x, n, z);
    }
  }

  lemma TouchRooted(s: State, x: nat, n: Node)
    requires Rooted(s) && x in s && n.parent == s[x].parent && n.depth == s[x].depth && !s[x].phase.Gone? && !n.phase.Gone? && !n.phase.Enqueued?
    ensures Rooted(s[x := n])
  {
  }

  lemma TouchChildren(s: State, x: nat, n: Node, z: nat)
    requires x in s && n.parent == s[x].parent && n.depth == s[x].depth && n.phase.Gone? == s[x].phase.Gone?
    ensures LiveChildren(s[x := n], z) == LiveChildren(s, z)
  {
  }

  lemma StartInv(s: State, s': State, x: nat)
    requires Inv(s) && Start(s, s', x)
    ensures Inv(s')
  {
    hide Rooted, LiveChildren;
    assert NodeOk(s, x);
    TouchInv(s, x, s'[x]);
  }

  /** A counter that reaches zero belongs to a step without live sub-steps. */
  lemma ReleaseInv(s: State, s': State, x: nat)
    requires Inv(s) && Release(s, s', x)
    ensures s[x].working > 0 && Inv(s')
  {
    hide Rooted, LiveChildren;
    assert NodeOk(s, x);
    assert s' == s[x := s'[x]];
    TouchInv(s, x, s'[x]);
  }

  /** substep_all_done() finds all sub-steps gone, each after its own. */
  lemma AllDoneInv(s: State, s': State, x: nat)
    requires Inv(s) && AllDone(s, s', x)
    ensures Inv(s') && s[x].runs == 0
    ensures forall y | y in s && y != ROOT && s[y].parent == x :: s[y].phase.Gone? && s[y].runs == 1
  {
    hide Rooted;
    assert NodeOk(s, x);
    NoChildren(s, x);
    TouchInv(s, x, s'[x]);
    forall y | y in s && y != ROOT && s[y].parent == x ensures s[y].phase.Gone? && s[y].runs == 1 {
      assert NodeOk(s, y);
      assert y !in LiveChildren(s, x);
    }
  }

  lemma SpawnInv(s: State, s': State, x: nat, y: nat)
    requires Inv(s) && Spawn(s, s', x, y)
    ensures Inv(s')
  {
    SpawnRooted(s, s', x, y);
    hide Rooted;
    forall z | z in s' ensures NodeOk(s', z) {
      SpawnChildren(s, s', x, y, z);
      if z != y { assert NodeOk(s, z); }
    }
  }

  lemma SpawnRooted(s: State, s': State, x: nat, y: nat)
    requires Rooted(s) && Spawn(s, s', x, y)
    ensures Rooted(s')
  {
    assert Parents(s');
    forall z | z in s' ensures Anchored(s', z) {
      if z != y { assert Anchored(s, z); }
    }
  }

  lemma SpawnChildren(s: State, s': State, x: nat, y: nat, z: nat)
    requires Rooted(s) && Spawn(s, s', x, y) && z in s'
    ensures z == y ==> LiveChildren(s', z) == {}
    ensures z != y ==> LiveChildren(s', z) == LiveChildren(s, z) + if z == x then {y} else {}
    ensures y !in LiveChildren(s, z)
  {
  }

  /** The parent is still there, and its counter does not fall below zero. */
  lemma NotifyInv(s: State, s': State, x: nat)
    requires Inv(s) && Notify(s, s', x)
    ensures s[s[x].parent].working > 0 && Inv(s')
  {
    var p := s[x].parent;
    assert NodeOk(s, x) && NodeOk(s, p);
    NoChildren(s, x);
    assert Anchored(s, x);
    assert x in LiveChildren(s, p);
    NotifyRooted(s, s', x);
    hide Rooted, LiveChildren;
    forall z | z in s' ensures NodeOk(s', z) {
      NotifyChildren(s, s', x, z);
      assert NodeOk(s, z);
      NotifyExact(s, s', x, z);
    }
  }

  lemma NotifyExact(s: State, s': State, x: nat, z: nat)
    requires Notify(s, s', x) && z in s && NodeOk(s, z) && NodeOk(s, x)
    requires x in LiveChildren(s, s[x].parent) && s[x].parent != x
    requires LiveChildren(s', z) == LiveChildren(s, z) - if z == s[x].parent then {x} else {}
    ensures z in s' && NodeOk(s', z)
  {
    hide LiveChildren;
    if z == s[x].parent {
      assert |LiveChildren(s', z)| == |LiveChildren(s, z)| - 1;
    }
  }

  lemma NotifyParents(s: State, s': State, x: nat)
    requires Parents(s) && Notify(s, s', x)
    ensures Parents(s') && s'.Keys == s.Keys
  {
  }

  lemma NotifyAnchored(s: State, s': State, x: nat, y: nat)
    requires Parents(s) && Notify(s, s', x) && Parents(s') && y in s && y in s' && Anchored(s, y) && Anchored(s, x)
    requires LiveChildren(s, x) == {} && s[s[x].parent].working > 0 && NodeOk(s, s[x].parent)
    ensures Anchored(s', y)
  {
    assert y !in LiveChildren(s, x);
  }

  lemma NotifyRooted(s: State, s': State, x: nat)
    requires Rooted(s) && Notify(s, s', x) && LiveChildren(s, x) == {} && s[s[x].parent].working > 0
    requires NodeOk(s, s[x].parent)
    ensures Rooted(s')
  {
    hide NodeOk;
    assert Anchored(s, x);
    NotifyParents(s, s', x);
    forall y | y in s' ensures Anchored(s', y) {
      assert Anchored(s, y);
      NotifyAnchored(s, s', x, y);
    }
  }

  lemma NotifyChildren(s: State, s': State, x: nat, z: nat)
    requires Rooted(s) && Notify(s, s', x) && z in s' && !s[s[x].parent].phase.Gone?
    ensures LiveChildren(s', z) == LiveChildren(s, z) - if z == s[x].parent then {x} else {}
    ensures s'[s[x].parent].phase.Gone? == s[s[x].parent].phase.Gone?
  {
  }

  lemma NextInv(s: State, s': State)
    requires Inv(s) && Next(s, s')
    ensures Inv(s')
  {
    if x :| Progress(s, s', x) {
      if Start(s, s', x) { StartInv(s, s', x); }
      else if Release(s, s', x) { ReleaseInv(s, s', x); }
      else if AllDone(s, s', x) { AllDoneInv(s, s', x); }
      else { NotifyInv(s, s', x); }
    } else {
      var x, y :| Spawn(s, s', x, y);
      SpawnInv(s, s', x, y);
    }
  }

  // ----------------------------------------------------------------- runs

  ghost predicate IsRun(r: seq<State>) {
    r != [] && Init(r[0]) && forall i: nat | i + 1 < |r| :: Next(r[i], r[i + 1])
  }

  lemma {:induction false} RunInv(r: seq<State>, i: nat)
    requires IsRun(r) && i < |r|
    ensures Inv(r[i])
  {
    if i == 0 {
      InitInv(r[0]);
    } else {
      RunInv(r, i - 1);
      NextInv(r[i - 1], r[i - 1 + 1]);
    }
  }

  /** In every run, no counter is ever negative, no substep_all_done() runs twice,
      and one that has run left no sub-step behind. */
  lemma RunSafe(r: seq<State>, i: nat, x: nat)
    requires IsRun(r) && i < |r| && x in r[i]
    ensures r[i][x].working >= 0 && r[i][x].runs <= 1
    ensures r[i][x].runs == 1 ==> forall y | y in r[i] && y != ROOT && r[i][y].parent == x :: r[i][y].runs == 1 && r[i][y].phase.Gone?
  {
    var s := r[i];
    RunInv(r, i);
    assert NodeOk(s, x);
    if s[x].runs == 1 {
      assert LiveChildren(s, x) == {};
      forall y | y in s && y != ROOT && s[y].parent == x ensures s[y].runs == 1 && s[y].phase.Gone? {
        assert y !in LiveChildren(s, x);
        assert NodeOk(s, y);
      }
    }
  }

  /** Below a finished root nothing is left: the root finishes last. */
  lemma {:induction false} RootLast(s: State, y: nat)
    requires Inv(s) && s[ROOT].phase.Finished? && y in s && y != ROOT
    ensures s[y].phase.Gone? && s[y].runs == 1
    decreases s[y].depth
  {
    var p := s[y].parent;
    assert NodeOk(s, y) && NodeOk(s, p);
    if !s[y].phase.Gone? {
      assert y in LiveChildren(s, p);
      if p != ROOT {
        RootLast(s, p);
      }
    }
  }

  ghost function MaxDepth(s: State, keys: set<nat>): (d: nat)
    requires forall x | x in keys :: x in s
    ensures forall x | x in keys :: s[x].depth <= d
  {
    if keys == {} then 0
    else
      var x :| x in keys;
      var d := MaxDepth(s, keys - {x});
      assert forall y | y in keys :: y == x || y in keys - {x};
      if s[x].depth > d then s[x].depth else d
  }

  /** A live step that waits has a live sub-step that can move. */
  lemma {:induction false} LiveMoves(s: State, x: nat) returns (z: nat, s': State)
    requires Inv(s) && x in s && !s[x].phase.Gone? && !(x == ROOT && s[x].phase.Finished?)
    ensures Progress(s, s', z)
    decreases MaxDepth(s, s.Keys) - s[x].depth
  {
    assert NodeOk(s, x);
    z := x;
    match s[x].phase
    case Enqueued => s' := s[x := s[x].(phase := Running, working := s[x].working + 1)];
    case Running => s' := Decrement(s[x := s[x].(phase := Waiting)], x);
    case Finishing => s' := s[x := s[x].(phase := Finished, runs := s[x].runs + 1)];
    case Finished => s' := Decrement(s[x := s[x].(phase := Gone)], s[x].parent);
    case Waiting =>
      assert |LiveChildren(s, x)| > 0;
      var y :| y in LiveChildren(s, x);
      z, s' := LiveMoves(s, y);
    case Gone =>
  }

  /** Until the root has finished, some step of the protocol is possible; once it
      has, every substep_all_done() has run exactly once. */
  lemma QuiescentIsComplete(r: seq<State>, i: nat)
    requires IsRun(r) && i < |r|
    ensures ROOT in r[i]
    ensures !r[i][ROOT].phase.Finished? ==> exists z, s' :: Progress(r[i], s', z)
    ensures r[i][ROOT].phase.Finished? ==> forall x | x in r[i] :: r[i][x].runs == 1 && (x == ROOT || r[i][x].phase.Gone?)
  {
    RunInv(r, i);
    var s := r[i];
    if s[ROOT].phase.Finished? {
      forall x | x in s ensures s[x].runs == 1 && (x == ROOT || s[x].phase.Gone?) {
        assert NodeOk(s, ROOT);
        if x != ROOT { RootLast(s, x); }
      }
    } else {
      var z, s' := LiveMoves(s, ROOT);
    }
  }

  // ------------------------------------------------ nothing is ruled out

  /** A running job can register a sub-step of any new name at any time, with exactly
      this effect. */
  lemma SpawnPossible(r: seq<State>, i: nat, x: nat, y: nat)
    requires IsRun(r) && i < |r| && x in r[i] && r[i][x].phase.Running? && y !in r[i]
    ensures var s := r[i];
            Next(s, s[x := s[x].(working := s[x].working + 1)][y := Node(x, s[x].depth + 1, Enqueued, 0, 0)])
  {
    var s := r[i];
    assert Spawn(s, s[x := s[x].(working := s[x].working + 1)][y := Node(x, s[x].depth + 1, Enqueued, 0, 0)], x, y);
  }

  /** Counter and runs of a node follow its phase. */
  lemma NodeFacts(s: State, x: nat)
    requires Inv(s) && x in s
    ensures var n := s[x];
            && n.runs == (if n.phase.Finished? || n.phase.Gone? then 1 else 0)
            && (n.phase.Enqueued? || n.phase.Finishing? || n.phase.Finished? || n.phase.Gone? ==> n.working == 0)
            && (n.phase.Running? || n.phase.Waiting? ==> n.working > 0)
  {
    hide Rooted, LiveChildren;
    assert NodeOk(s, x);
  }

  function Moved(s: State, x: nat, phase: Phase, working: int, runs: nat): (s': State)
    requires x in s
  {
    s[x := Node(s[x].parent, s[x].depth, phase, working, runs)]
  }

  lemma ProgressIsNext(s: State, s': State, x: nat)
    requires Progress(s, s', x)
    ensures Next(s, s')
  {
    hide Progress;
  }

  /** What a node that can move does to itself: a job starts with a handle of its own,
      gives it back, and substep_all_done() is due exactly if it was the last. */
  lemma MovesPossible(r: seq<State>, i: nat, x: nat)
    requires IsRun(r) && i < |r| && x in r[i]
    ensures var s, w := r[i], r[i][x].working;
            && (s[x].phase.Enqueued? ==> Next(s, Moved(s, x, Running, 1, 0)))
            && (s[x].phase.Running? && w > 1 ==> Next(s, Moved(s, x, Waiting, w - 1, 0)))
            && (s[x].phase.Running? && w == 1 ==> Next(s, Moved(s, x, Finishing, 0, 0)))
            && (s[x].phase.Finishing? ==> Next(s, Moved(s, x, Finished, 0, 1)))
  {
    hide Inv, Next, IsRun;
    RunInv(r, i);
    var s, w := r[i], r[i][x].working;
    NodeFacts(s, x);
    if s[x].phase.Enqueued? {
      ProgressIsNext(s, Moved(s, x, Running, 1, 0), x);
    } else if s[x].phase.Running? && w > 1 {
      ProgressIsNext(s, Moved(s, x, Waiting, w - 1, 0), x);
    } else if s[x].phase.Running? {
      ProgressIsNext(s, Moved(s, x, Finishing, 0, 0), x);
    } else if s[x].phase.Finishing? {
      ProgressIsNext(s, Moved(s, x, Finished, 0, 1), x);
    }
  }

  lemma ParentThere(s: State, x: nat)
    requires Inv(s) && x in s && x != ROOT && !s[x].phase.Gone?
    ensures var p := s[x].parent; p in s && p != x && s[p].working > 0 && (s[p].phase.Running? ==> s[p].working > 1)
  {
    assert NodeOk(s, s[x].parent) && Anchored(s, x);
    assert x in LiveChildren(s, s[x].parent);
  }

  /** The parent with one handle or sub-step less: substep_all_done() is due exactly if
      that was the last one. */
  function Told(s: State, x: nat): (s': State)
    requires x in s && s[x].parent in s
  {
    var p, w := s[x].parent, s[s[x].parent].working - 1;
    s[x := Node(s[x].parent, s[x].depth, Gone, s[x].working, s[x].runs)]
     [p := Node(s[p].parent, s[p].depth, if w == 0 then Finishing else s[p].phase, w, s[p].runs)]
  }

  /** A finished step tells its parent and is gone. */
  lemma NotifyPossible(r: seq<State>, i: nat, x: nat)
    requires IsRun(r) && i < |r| && x in r[i] && x != ROOT && r[i][x].phase.Finished?
    ensures r[i][x].parent in r[i] && r[i][x].parent != x && Next(r[i], Told(r[i], x))
  {
    hide Inv, Next, IsRun;
    RunInv(r, i);
    ParentThere(r[i], x);
    ProgressIsNext(r[i], Told(r[i], x), x);
  }

  /** A tree of steps, numbered with parents first. */
  predicate IsTree(p: seq<nat>) {
    p != [] && forall i | 0 < i < |p| :: p[i] < i
  }

  /** Exactly the first n steps of the tree are there. */
  ghost predicate Registered(s: State, p: seq<nat>, n: nat) {
    n <= |p| && (forall i: nat :: i in s <==> i < n) && forall i: nat | 0 < i < n :: i in s && s[i].parent == p[i]
  }

  lemma RunMore(r: seq<State>, s': State)
    requires IsRun(r) && Next(r[|r| - 1], s')
    ensures IsRun(r + [s'])
  {
    hide Next;
    var r' := r + [s'];
    forall i: nat | i + 1 < |r'| ensures Next(r'[i], r'[i + 1]) {
      if i + 1 < |r| { assert Next(r[i], r[i + 1]); }
    }
  }

  ghost predicate AllRunning(s: State) {
    forall i | i in s :: s[i].phase.Running?
  }

  /** Registers and starts the first n steps. */
  lemma {:induction false} Grow(p: seq<nat>, n: nat) returns (r: seq<State>)
    requires IsTree(p) && 0 < n <= |p|
    ensures IsRun(r) && Registered(r[|r| - 1], p, n) && AllRunning(r[|r| - 1])
  {
    hide Next, Inv;
    if n == 1 {
      r := [map[ROOT := Node(ROOT, 0, Enqueued, 0, 0)]];
    } else {
      r := Grow(p, n - 1);
      var s, x := r[|r| - 1], p[n - 1];
      SpawnPossible(r, |r| - 1, x, n - 1);
      var s1 := s[x := s[x].(working := s[x].working + 1)][n - 1 := Node(x, s[x].depth + 1, Enqueued, 0, 0)];
      RunMore(r, s1);
      r := r + [s1];
    }
    MovesPossible(r, |r| - 1, n - 1);
    var s2 := Moved(r[|r| - 1], n - 1, Running, 1, 0);
    RunMore(r, s2);
    r := r + [s2];
  }

  /** The steps from n on have gone, the others are running. */
  ghost predicate Shrunk(s: State, n: nat) {
    forall i | i in s :: if i < n then s[i].phase.Running? else s[i].phase.Gone?
  }

  /** A running step whose sub-steps have gone has only its own handle left. */
  lemma LastHandle(s: State, x: nat)
    requires Inv(s) && x in s && s[x].phase.Running? && forall y | y in s && y != ROOT && s[y].parent == x :: s[y].phase.Gone?
    ensures s[x].working == 1
  {
    assert NodeOk(s, x);
    assert LiveChildren(s, x) == {};
  }

  /** Takes the last running step to its substep_all_done(). */
  lemma FinishLast(r: seq<State>, p: seq<nat>, n: nat) returns (r': seq<State>)
    requires IsTree(p) && 0 < n <= |p| && IsRun(r) && Registered(r[|r| - 1], p, |p|) && Shrunk(r[|r| - 1], n)
    ensures IsRun(r') && Registered(r'[|r'| - 1], p, |p|)
    ensures r'[|r'| - 1] == Moved(r[|r| - 1], n - 1, Finished, 0, 1)
  {
    hide Next, Inv, Init;
    var s, x := r[|r| - 1], n - 1;
    RunInv(r, |r| - 1);
    LastHandle(s, x);
    MovesPossible(r, |r| - 1, x);
    var s1 := Moved(s, x, Finishing, 0, 0);
    RunMore(r, s1);
    r' := r + [s1];
    MovesPossible(r', |r'| - 1, x);
    var s2 := Moved(s1, x, Finished, 0, 1);
    RunMore(r', s2);
    r' := r' + [s2];
    assert s2 == Moved(s, x, Finished, 0, 1);
  }

  lemma {:induction false} Shrink(r: seq<State>, p: seq<nat>, n: nat) returns (r': seq<State>)
    requires IsTree(p) && 0 < n <= |p| && IsRun(r) && Registered(r[|r| - 1], p, |p|) && Shrunk(r[|r| - 1], n)
    ensures IsRun(r') && Registered(r'[|r'| - 1], p, |p|) && r'[|r'| - 1][ROOT].phase.Finished?
    decreases n
  {
    hide Next, Inv, Init;
    r' := FinishLast(r, p, n);
    if n > 1 {
      var s := r'[|r'| - 1];
      RunInv(r', |r'| - 1);
      ParentThere(s, n - 1);
      NotifyPossible(r', |r'| - 1, n - 1);
      RunMore(r', Told(s, n - 1));
      r' := r' + [Told(s, n - 1)];
      r' := Shrink(r', p, n - 1);
    }
  }

  /** For every finite tree some run registers exactly that tree, and ends with the root
      finished and every substep_all_done() executed once. */
  lemma EveryTree(p: seq<nat>) returns (r: seq<State>)
    requires p != [] && forall i | 0 < i < |p| :: p[i] < i
    ensures IsRun(r)
    ensures var s := r[|r| - 1]; forall x: nat :: x in s <==> x < |p|
    ensures var s := r[|r| - 1]; ROOT in s && s[ROOT].phase.Finished? && forall x | x in s :: s[x].runs == 1 && (x > 0 ==> s[x].parent == p[x])
  {
    hide Next;
    r := Grow(p, |p|);
    r := Shrink(r, p, |p|);
    QuiescentIsComplete(r, |r| - 1);
  }
}
