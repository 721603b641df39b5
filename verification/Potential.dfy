/** Why the loops over a stack of sorting steps end, and why child jobs are
    smaller than the job that makes them. */
module Potential {
  import opened Areas
  import opened Multiples
  import opened StableSort
  import opened Steps
  import opened Strings

  /** No text is longer than limit and no area larger than size. */
  function Rank(limit: nat, size: nat, depth: nat, n: nat): (r: nat) {
    n + if depth <= limit then Times(limit - depth, size + 1) else 0
  }

  lemma RankLess(limit: nat, size: nat, depth: nat, n: nat, depth': nat, n': nat)
    requires (depth < depth' <= limit && n' <= size) || (depth == depth' && n' < n)
    ensures Rank(limit, size, depth', n') < Rank(limit, size, depth, n)
  {
    if depth < depth' {
      TimesMono(limit - depth', limit - depth, size + 1);
    }
  }

  /** Strings of the step in parts that have not been started. */
  function Left(s: Step): (n: nat)
    requires ValidStep(s)
  {
    if s.idx < PartCount(s) && PartOffset(s, s.idx) <= s.n then s.n - PartOffset(s, s.idx) else 0
  }

  /** Bound on the rounds that a step and all steps above it will still take. */
  function StepPotential(s: Step, rank: nat, C: nat): (p: nat)
    requires ValidStep(s)
  {
    Times(Left(s), Times(rank, C)) + 1 + if s.idx < PartCount(s) then PartCount(s) - s.idx else 0
  }

  lemma {:induction false} TimesMonoRight(k: nat, b: nat, c: nat)
    requires b <= c
    ensures Times(k, b) <= Times(k, c)
  {
    if k > 0 {
      TimesMonoRight(k - 1, b, c);
    }
  }

  lemma {:induction false} TimesSplit(k: nat, b: nat, c: nat)
    ensures Times(k, b + c) == Times(k, b) + Times(k, c)
  {
    if k > 0 {
      TimesSplit(k - 1, b, c);
    }
  }

  /** Starting a part pays for the step that sorts it. */
  lemma PushPays(s: Step, s': Step, child: Step, rank: nat, childRank: nat, C: nat)
    requires ValidStep(s) && ValidStep(child) && s' == s.(idx := s.idx + 1) && s.idx < PartCount(s)
    requires Left(s) == child.n + Left(s') && child.n > 0 && child.idx == 0 && PartOffset(child, 0) == 0
    requires childRank < rank && PartCount(child) + 1 <= C
    ensures StepPotential(s', rank, C) + StepPotential(child, childRank, C) < StepPotential(s, rank, C)
  {
    hide Times, PartOffset;
    var c := Times(rank, C);
    TimesAdd(child.n, Left(s'), c);
    TimesMono(childRank, rank, C);
    TimesMonoRight(child.n, Times(childRank, C) + C, c);
    TimesSplit(child.n, Times(childRank, C), C);
    TimesMono(0, child.n, C);
    TimesZero(C);
  }

  lemma TimesZero(b: nat)
    ensures Times(0, b) == 0
  {
  }

  /** Starting a part that needs no step of its own. */
  lemma StartPays(s: Step, s': Step, rank: nat, C: nat)
    requires ValidStep(s) && s' == s.(idx := s.idx + 1) && s.idx < PartCount(s) && Left(s') <= Left(s)
    ensures StepPotential(s', rank, C) < StepPotential(s, rank, C)
  {
    TimesMono(Left(s'), Left(s), Times(rank, C));
  }

  /** Sum over the live part of a stack. */
  function StackPotential(stack: seq<Step>, pop: nat, limit: nat, size: nat, C: nat): (p: nat)
    requires forall s | s in stack :: ValidStep(s)
    decreases |stack|
  {
    if |stack| <= pop then 0
    else var last := |stack| - 1;
      StackPotential(stack[..last], pop, limit, size, C)
      + StepPotential(stack[last], Rank(limit, size, stack[last].depth, stack[last].n), C)
  }

  /** Giving the bottom of the stack away only lowers the potential. */
  lemma {:induction false} FreeLowers(stack: seq<Step>, stack': seq<Step>, pop: nat, pop': nat, limit: nat, size: nat, C: nat)
    requires forall s | s in stack + stack' :: ValidStep(s)
    requires |stack'| == |stack| && pop <= pop' && forall k | pop' <= k < |stack| :: stack'[k] == stack[k]
    ensures StackPotential(stack', pop', limit, size, C) <= StackPotential(stack, pop, limit, size, C)
    decreases |stack|
  {
    hide StepPotential, ValidStep;
    if |stack| > pop' {
      var last := |stack| - 1;
      assert forall s | s in stack[..last] + stack'[..last] :: s in stack + stack';
      FreeLowers(stack[..last], stack'[..last], pop, pop', limit, size, C);
      assert stack'[last] == stack[last];
    }
  }

  /** One more part of the step is started. */
  function Counted(s: Step): (s': Step) {
    s.(idx := s.idx + 1)
  }

  /** The next part of the top step is started. */
  function Bumped(stack: seq<Step>): (r: seq<Step>)
    requires stack != []
    ensures |r| == |stack|
  {
    stack[|stack| - 1 := Counted(stack[|stack| - 1])]
  }

  lemma LeftNext(s: Step, parts: seq<seq<Str>>)
    requires Fits(s, parts) && s.idx < PartCount(s)
    ensures ValidStep(s.(idx := s.idx + 1)) && Left(s) == |parts[s.idx]| + Left(s.(idx := s.idx + 1))
    ensures PartOffset(s, 0) == 0
  {
    hide Keyed, Progress, SharePrefix;
    var i := s.idx;
    assert PartOffset(s, i) == Offset(parts, i) && PartSize(s, i) == |parts[i]|;
    assert PartOffset(s, 0) == Offset(parts, 0);
    OffsetNext(parts, i);
    OffsetTotal(parts, i + 1);
    if i + 1 < |parts| {
      assert PartOffset(s, i + 1) == Offset(parts, i + 1);
    }
  }

  lemma StartLowersBy(stack: seq<Step>, pop: nat, limit: nat, size: nat, C: nat)
    requires (forall s | s in stack :: ValidStep(s)) && pop < |stack|
    requires stack[|stack| - 1].idx < PartCount(stack[|stack| - 1])
    requires ValidStep(Bumped(stack)[|stack| - 1]) && Left(Bumped(stack)[|stack| - 1]) <= Left(stack[|stack| - 1])
    ensures forall s | s in Bumped(stack) :: ValidStep(s)
    ensures StackPotential(Bumped(stack), pop, limit, size, C) < StackPotential(stack, pop, limit, size, C)
  {
    hide StepPotential, Left;
    var top := |stack| - 1;
    var s := stack[top];
    StartPays(s, s.(idx := s.idx + 1), Rank(limit, size, s.depth, s.n), C);
    assert Bumped(stack)[..top] == stack[..top];
  }

  lemma StartLowers(stack: seq<Step>, parts: seq<seq<Str>>, pop: nat, limit: nat, size: nat, C: nat)
    requires (forall s | s in stack :: ValidStep(s)) && pop < |stack| && Fits(Bumped(stack)[|stack| - 1], parts)
    requires stack[|stack| - 1].idx < PartCount(stack[|stack| - 1])
    ensures forall s | s in Bumped(stack) :: ValidStep(s)
    ensures StackPotential(Bumped(stack), pop, limit, size, C) < StackPotential(stack, pop, limit, size, C)
  {
    hide StepPotential, Fits, Left;
    var top := |stack| - 1;
    FitsAnyIdx(Bumped(stack)[top], stack[top].idx, parts);
    LeftNext(stack[top], parts);
    StartLowersBy(stack, pop, limit, size, C);
  }

  lemma PushLowersBy(stack: seq<Step>, child: Step, pop: nat, limit: nat, size: nat, C: nat)
    requires (forall s | s in stack :: ValidStep(s)) && pop < |stack| && ValidStep(child)
    requires stack[|stack| - 1].idx < PartCount(stack[|stack| - 1]) && child.idx == 0 && child.n > 0 && PartCount(child) + 1 <= C
    requires PartCount(child) > 0 && PartOffset(child, 0) == 0
    requires ValidStep(Bumped(stack)[|stack| - 1]) && Left(stack[|stack| - 1]) == child.n + Left(Bumped(stack)[|stack| - 1])
    requires Rank(limit, size, child.depth, child.n) < Rank(limit, size, stack[|stack| - 1].depth, stack[|stack| - 1].n)
    ensures forall s | s in Bumped(stack) + [child] :: ValidStep(s)
    ensures StackPotential(Bumped(stack) + [child], pop, limit, size, C) < StackPotential(stack, pop, limit, size, C)
  {
    hide StepPotential, Rank, Left;
    var top := |stack| - 1;
    var s, stack' := stack[top], Bumped(stack) + [child];
    PushPays(s, s.(idx := s.idx + 1), child, Rank(limit, size, s.depth, s.n), Rank(limit, size, child.depth, child.n), C);
    assert stack'[..top + 1] == Bumped(stack) && Bumped(stack)[..top] == stack[..top];
  }

  lemma PushLowers(stack: seq<Step>, parts: seq<seq<Str>>, child: Step, parts': seq<seq<Str>>, pop: nat, limit: nat, size: nat, C: nat)
    requires (forall s | s in stack :: ValidStep(s)) && pop < |stack|
    requires Fits(Bumped(stack)[|stack| - 1], parts) && Fits(child, parts')
    requires stack[|stack| - 1].idx < PartCount(stack[|stack| - 1]) && child.idx == 0
    requires child.n == |parts[stack[|stack| - 1].idx]| > 0 && PartCount(child) + 1 <= C
    requires Rank(limit, size, child.depth, child.n) < Rank(limit, size, stack[|stack| - 1].depth, stack[|stack| - 1].n)
    ensures forall s | s in Bumped(stack) + [child] :: ValidStep(s)
    ensures StackPotential(Bumped(stack) + [child], pop, limit, size, C) < StackPotential(stack, pop, limit, size, C)
  {
    hide StepPotential, Fits, Rank, Left;
    FitsValid(child, parts');
    var top := |stack| - 1;
    FitsAnyIdx(Bumped(stack)[top], stack[top].idx, parts);
    LeftNext(stack[top], parts);
    LeftNext(child, parts');
    PushLowersBy(stack, child, pop, limit, size, C);
  }

  lemma FitsValid(s: Step, parts: seq<seq<Str>>)
    requires Fits(s, parts)
    ensures ValidStep(s) && PartCount(s) > 0
  {
  }

  lemma PopLowers(stack: seq<Step>, pop: nat, limit: nat, size: nat, C: nat)
    requires (forall s | s in stack :: ValidStep(s)) && pop < |stack|
    ensures StackPotential(stack[..|stack| - 1], pop, limit, size, C) < StackPotential(stack, pop, limit, size, C)
  {
    hide Times, Rank, PartOffset;
  }
}
