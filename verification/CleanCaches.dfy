/** Which cached keys of a stack of MKQS steps are still clean: those of the
    smaller and larger parts that have not been started. */
module CleanCaches {
  import opened Areas
  import opened Jobs
  import opened Levels
  import opened MakeSteps
  import opened Partition
  import opened Steps
  import opened Strings

  ghost predicate KeysIn(keys: seq<nat>, at: nat, s: seq<Str>, depth: nat) {
    at + |s| <= |keys| && forall i | 0 <= i < |s| :: keys[at + i] == K(s[i], depth)
  }

  lemma KeysInAt(cache: array<nat>, at: nat, s: seq<Str>, depth: nat)
    ensures KeysIn(cache[..], at, s, depth) <==> KeysAt(cache, at, s, depth)
  {
    hide K;
    if KeysAt(cache, at, s, depth) {
      forall i | 0 <= i < |s| ensures cache[..][at + i] == K(s[i], depth) {
        assert cache[at + i] == K(s[i], depth);
      }
    }
    if KeysIn(cache[..], at, s, depth) {
      forall i | 0 <= i < |s| ensures cache[at + i] == K(s[i], depth) {
        assert cache[..][at + i] == K(s[i], depth);
      }
    }
  }

  ghost predicate CleanPart(keys: seq<nat>, l: Level, j: nat, depth: nat)
    requires j < |l.parts|
  {
    KeysIn(keys, l.lo + Offset(l.parts, j), l.parts[j], depth)
  }

  ghost predicate CleanLevel(keys: seq<nat>, l: Level, depth: nat) {
    && |l.parts| == 3
    && (l.next <= 0 ==> CleanPart(keys, l, 0, depth))
    && (l.next <= 2 ==> CleanPart(keys, l, 2, depth))
  }

  /** Steps from base on are MKQS steps. */
  ghost predicate CleanStack(keys: seq<nat>, steps: seq<Step>, levels: seq<Level>, base: nat) {
    |levels| == |steps| + 1 && forall k | base <= k < |steps| :: CleanLevel(keys, levels[k + 1], steps[k].depth)
  }

  ghost predicate KeptKeys(keys: seq<nat>, keys': seq<nat>, at: nat, n: nat) {
    |keys| == |keys'| && forall p | 0 <= p < |keys| && !(at <= p < at + n) :: keys'[p] == keys[p]
  }

  lemma KeysElsewhere(keys: seq<nat>, keys': seq<nat>, lo: nat, n: nat, at: nat, s: seq<Str>, depth: nat)
    requires KeptKeys(keys, keys', lo, n) && KeysIn(keys, at, s, depth) && (at + |s| <= lo || lo + n <= at)
    ensures KeysIn(keys', at, s, depth)
  {
    hide K;
  }

  lemma CleanPartKept(keys: seq<nat>, keys': seq<nat>, levels: seq<Level>, k: nat, j: nat, depth: nat)
    requires Nested(levels) && levels != [] && Top(levels).next < |Top(levels).parts| && IsPart(levels, k, j)
    requires CleanPart(keys, levels[k], j, depth)
    requires var top, jt := |levels| - 1, Top(levels).next;
             && KeptKeys(keys, keys', Start(levels, top, jt), |levels[top].parts[jt]|)
             && levels[k].next <= j && !(k == top && j == jt)
    ensures CleanPart(keys', levels[k], j, depth)
  {
    hide K, KeysIn, KeptKeys, Nested;
    var top, jt := |levels| - 1, Top(levels).next;
    PartsApart(levels, k, j, top, jt);
    KeysElsewhere(keys, keys', Start(levels, top, jt), |levels[top].parts[jt]|, Start(levels, k, j), levels[k].parts[j], depth);
  }

  /** Sorting the next part of the top level leaves the waiting parts clean. */
  lemma CleanKept(keys: seq<nat>, keys': seq<nat>, steps: seq<Step>, levels: seq<Level>, base: nat)
    requires CleanStack(keys, steps, levels, base) && Nested(levels) && Top(levels).next < |Top(levels).parts|
    requires var k, j := |levels| - 1, Top(levels).next; KeptKeys(keys, keys', Start(levels, k, j), |levels[k].parts[j]|)
    ensures CleanStack(keys', steps, Advance(levels), base)
  {
    hide CleanPart, KeptKeys, Nested, Start;
    var top := |levels| - 1;
    var levels' := Advance(levels);
    forall k | base <= k < |steps| ensures CleanLevel(keys', levels'[k + 1], steps[k].depth) {
      assert CleanLevel(keys, levels[k + 1], steps[k].depth);
      if levels'[k + 1].next <= 0 { CleanPartKept(keys, keys', levels, k + 1, 0, steps[k].depth); }
      if levels'[k + 1].next <= 2 { CleanPartKept(keys, keys', levels, k + 1, 2, steps[k].depth); }
      CleanSameParts(keys', levels[k + 1], levels'[k + 1], steps[k].depth);
    }
  }

  lemma CleanSameParts(keys: seq<nat>, l: Level, l': Level, depth: nat)
    requires |l.parts| == 3 && l'.parts == l.parts && l'.lo == l.lo
    requires l'.next <= 0 ==> CleanPart(keys, l, 0, depth)
    requires l'.next <= 2 ==> CleanPart(keys, l, 2, depth)
    ensures CleanLevel(keys, l', depth)
  {
  }

  lemma CleanPush(keys: seq<nat>, steps: seq<Step>, levels: seq<Level>, base: nat, s: Step, l: Level)
    requires CleanStack(keys, steps, levels, base) && CleanLevel(keys, l, s.depth)
    ensures CleanStack(keys, steps + [s], levels + [l], base)
  {
    hide CleanLevel;
  }

  lemma CleanOne(keys: seq<nat>, steps: seq<Step>, levels: seq<Level>, s: Step, l: Level)
    requires |levels| == |steps| + 1 && CleanLevel(keys, l, s.depth)
    ensures CleanStack(keys, steps + [s], levels + [l], |steps|)
  {
    hide CleanLevel;
  }

  lemma CleanNew(cache: array<nat>, s: Step, parts: seq<seq<Str>>)
    requires CleanParts(cache, s.lo, parts, s.depth)
    ensures CleanLevel(cache[..], NewLevel(s, parts), s.depth)
  {
    hide K, KeysAt, KeysIn;
    KeysInAt(cache, s.lo + Offset(parts, 0), parts[0], s.depth);
    KeysInAt(cache, s.lo + Offset(parts, 2), parts[2], s.depth);
  }

  lemma CleanPop(keys: seq<nat>, steps: seq<Step>, levels: seq<Level>, base: nat)
    requires CleanStack(keys, steps, levels, base) && steps != []
    ensures CleanStack(keys, steps[..|steps| - 1], levels[..|steps|], base)
  {
    hide CleanLevel;
    var steps', levels' := steps[..|steps| - 1], levels[..|steps|];
    forall k | base <= k < |steps'| ensures CleanLevel(keys, levels'[k + 1], steps'[k].depth) {
      assert CleanLevel(keys, levels[k + 1], steps[k].depth);
    }
  }

  /** The same levels, but for who is responsible for them. */
  ghost predicate SameParts(levels: seq<Level>, levels': seq<Level>) {
    |levels| == |levels'| && forall k | 0 <= k < |levels| :: levels'[k] == levels[k].(freed := levels'[k].freed)
  }

  lemma CleanFreed(keys: seq<nat>, steps: seq<Step>, steps': seq<Step>, levels: seq<Level>, levels': seq<Level>, base: nat)
    requires CleanStack(keys, steps, levels, base) && SameParts(levels, levels')
    requires |steps| == |steps'| && forall k | base <= k < |steps| :: steps'[k].depth == steps[k].depth
    ensures CleanStack(keys, steps', levels', base)
  {
    hide KeysIn;
    forall k | base <= k < |steps'| ensures CleanLevel(keys, levels'[k + 1], steps'[k].depth) {
      assert CleanLevel(keys, levels[k + 1], steps[k].depth);
    }
  }
}
