/** The stack of recursive steps of a sorting job, seen without its details: which
    sub-areas are finished, waiting, or handed to child jobs, while the bottom of
    the stack may be given away at any moment. */
module Levels {
  import opened Strings
  import opened Areas

  /** One step. Parts below next have been started, the last of them is the one
      that the next level works on; a freed level has given the others away. */
  datatype Level = Level(flip: bool, lo: nat, parts: seq<seq<Str>>, next: nat, freed: bool)

  /** A child job: part `part` of level `level`. */
  datatype Child = Child(level: nat, part: nat)

  ghost predicate IsPart(levels: seq<Level>, k: nat, j: nat) {
    k < |levels| && j < |levels[k].parts|
  }

  ghost function Start(levels: seq<Level>, k: nat, j: nat): (p: nat)
    requires IsPart(levels, k, j)
  {
    levels[k].lo + Offset(levels[k].parts, j)
  }

  /** The next level is sorting this part. */
  ghost predicate Active(levels: seq<Level>, k: nat, j: nat) {
    k + 1 < |levels| && j + 1 == levels[k].next
  }

  ghost predicate Nested(levels: seq<Level>) {
    && (forall k | 0 <= k < |levels| :: OrderedParts(levels[k].parts) && levels[k].next <= |levels[k].parts|)
    && (forall k: nat | k + 1 < |levels| ::
          && 0 < levels[k].next
          && levels[k + 1].lo == Start(levels, k, levels[k].next - 1)
          && multiset(Concat(levels[k + 1].parts)) == multiset(levels[k].parts[levels[k].next - 1]))
  }

  /** Where part j of level k stands. */
  ghost predicate PartOk(m: Mem, levels: seq<Level>, kids: set<Child>, k: nat, j: nat)
    requires IsPart(levels, k, j)
  {
    if j < levels[k].next || (levels[k].freed && Child(k, j) !in kids)
    then Done(m, Start(levels, k, j), levels[k].parts[j])
    else At(Side(m, levels[k].flip), Start(levels, k, j), levels[k].parts[j])
  }

  ghost predicate KidsOk(levels: seq<Level>, kids: set<Child>) {
    forall c | c in kids :: IsPart(levels, c.level, c.part) && levels[c.level].freed && levels[c.level].next <= c.part
  }

  ghost predicate Chain(m: Mem, levels: seq<Level>, kids: set<Child>) {
    && ValidMem(m) && Nested(levels) && KidsOk(levels, kids)
    && forall k: nat, j: nat | IsPart(levels, k, j) && !Active(levels, k, j) :: PartOk(m, levels, kids, k, j)
  }

  lemma {:induction false} LevelInside(levels: seq<Level>, k: nat, k': nat)
    requires Nested(levels) && k < k' < |levels|
    ensures IsPart(levels, k, levels[k].next - 1)
    ensures Start(levels, k, levels[k].next - 1) <= levels[k'].lo
    ensures levels[k'].lo + |Concat(levels[k'].parts)|
              <= Start(levels, k, levels[k].next - 1) + |levels[k].parts[levels[k].next - 1]|
    decreases k'
  {
    var a := levels[k' - 1].next - 1;
    assert levels[(k' - 1) + 1].lo == Start(levels, k' - 1, a);
    assert |Concat(levels[k'].parts)| == |multiset(Concat(levels[k'].parts))| == |levels[k' - 1].parts[a]|;
    if k < k' - 1 {
      LevelInside(levels, k, k' - 1);
      OffsetMono(levels[k' - 1].parts, a + 1, |levels[k' - 1].parts|);
      OffsetNext(levels[k' - 1].parts, a);
    }
  }

  /** Two sub-areas that no deeper level is working on do not overlap. */
  lemma PartsApart(levels: seq<Level>, k: nat, j: nat, k': nat, j': nat)
    requires Nested(levels) && IsPart(levels, k, j) && IsPart(levels, k', j') && k <= k'
    requires !Active(levels, k, j) && (k != k' || j != j')
    ensures Start(levels, k, j) + |levels[k].parts[j]| <= Start(levels, k', j')
            || Start(levels, k', j') + |levels[k'].parts[j']| <= Start(levels, k, j)
  {
    var p, p' := levels[k].parts, levels[k'].parts;
    if k == k' {
      if j < j' { OffsetMono(p, j, j'); } else { OffsetMono(p, j', j); }
    } else {
      LevelInside(levels, k, k');
      OffsetNext(p', j');
      OffsetMono(p', j' + 1, |p'|);
      var a := levels[k].next - 1;
      if j < a { OffsetMono(p, j, a); } else { OffsetMono(p, a, j); }
    }
  }

  /** All sub-areas but (k, j) are as they should be. */
  ghost predicate OthersOk(m: Mem, levels: seq<Level>, kids: set<Child>, k: nat, j: nat) {
    forall k': nat, j': nat | IsPart(levels, k', j') && !Active(levels, k', j') && !(k' == k && j' == j) ::
      PartOk(m, levels, kids, k', j')
  }

  /** A change inside one sub-area leaves all the others as they were. */
  lemma OthersKept(m: Mem, m': Mem, levels: seq<Level>, kids: set<Child>, k: nat, j: nat)
    requires Nested(levels) && IsPart(levels, k, j) && !Active(levels, k, j) && OthersOk(m, levels, kids, k, j)
    requires Within(m, m', Start(levels, k, j), |levels[k].parts[j]|)
    ensures OthersOk(m', levels, kids, k, j)
  {
    hide Done, At, Within, Nested;
    forall k': nat, j': nat | IsPart(levels, k', j') && !Active(levels, k', j') && !(k' == k && j' == j)
      ensures PartOk(m', levels, kids, k', j')
    {
      if k <= k' { PartsApart(levels, k, j, k', j'); } else { PartsApart(levels, k', j', k, j); }
      var lo, n, at, part := Start(levels, k, j), |levels[k].parts[j]|, Start(levels, k', j'), levels[k'].parts[j'];
      assert PartOk(m, levels, kids, k', j');
      if Done(m, at, part) {
        DoneElsewhere(m, m', lo, n, at, part);
      }
      if At(Side(m, levels[k'].flip), at, part) {
        AtElsewhere(m, m', lo, n, at, part, levels[k'].flip);
      }
    }
  }

  function Top(levels: seq<Level>): (l: Level)
    requires levels != []
  {
    levels[|levels| - 1]
  }

  /** The next part of the top level is under way. */
  function Advance(levels: seq<Level>): (r: seq<Level>)
    requires levels != []
  {
    levels[|levels| - 1 := Top(levels).(next := Top(levels).next + 1)]
  }

  lemma AdvanceNested(levels: seq<Level>)
    requires Nested(levels) && levels != [] && Top(levels).next < |Top(levels).parts|
    ensures Nested(Advance(levels))
  {
  }

  /** The next part was sorted on the spot. */
  lemma PartSorted(m: Mem, m': Mem, levels: seq<Level>, kids: set<Child>)
    requires Chain(m, levels, kids) && levels != [] && !Top(levels).freed && Top(levels).next < |Top(levels).parts|
    requires var k, j := |levels| - 1, Top(levels).next;
             Within(m, m', Start(levels, k, j), |levels[k].parts[j]|) && Done(m', Start(levels, k, j), levels[k].parts[j])
    ensures Chain(m', Advance(levels), kids)
  {
    hide Done, At, Within;
    var k, j := |levels| - 1, Top(levels).next;
    OthersKept(m, m', levels, kids, k, j);
    var levels' := Advance(levels);
    AdvanceNested(levels);
    forall k': nat, j': nat | IsPart(levels', k', j') && !Active(levels', k', j') ensures PartOk(m', levels', kids, k', j') {
      if !(k' == k && j' == j) {
        assert PartOk(m', levels, kids, k', j');
      }
    }
    WithinValid(m, m', Start(levels, k, j), |levels[k].parts[j]|);
  }

  lemma WithinValid(m: Mem, m': Mem, lo: nat, n: nat)
    requires Within(m, m', lo, n)
    ensures ValidMem(m')
  {
  }

  /** The next part became a level of its own. */
  lemma PartSplit(m: Mem, m': Mem, levels: seq<Level>, kids: set<Child>, new1: Level)
    requires Chain(m, levels, kids) && levels != [] && !Top(levels).freed && Top(levels).next < |Top(levels).parts|
    requires var k, j := |levels| - 1, Top(levels).next;
             && Within(m, m', Start(levels, k, j), |levels[k].parts[j]|)
             && new1.lo == Start(levels, k, j) && multiset(Concat(new1.parts)) == multiset(levels[k].parts[j])
    requires OrderedParts(new1.parts) && new1.next == 0 && !new1.freed
    requires forall j | 0 <= j < |new1.parts| :: At(Side(m', new1.flip), new1.lo + Offset(new1.parts, j), new1.parts[j])
    ensures Chain(m', Advance(levels) + [new1], kids)
  {
    hide Done, At, Within, Nested, Offset, Concat, OrderedParts;
    var k, j := |levels| - 1, Top(levels).next;
    OthersKept(m, m', levels, kids, k, j);
    var levels' := Advance(levels) + [new1];
    SplitNested(levels, new1);
    forall k': nat, j': nat | IsPart(levels', k', j') && !Active(levels', k', j') ensures PartOk(m', levels', kids, k', j') {
      if k' <= k {
        assert PartOk(m', levels, kids, k', j');
      }
    }
    WithinValid(m, m', Start(levels, k, j), |levels[k].parts[j]|);
  }

  lemma SplitNested(levels: seq<Level>, new1: Level)
    requires Nested(levels) && levels != [] && Top(levels).next < |Top(levels).parts| && OrderedParts(new1.parts) && new1.next == 0
    requires var k, j := |levels| - 1, Top(levels).next;
             new1.lo == Start(levels, k, j) && multiset(Concat(new1.parts)) == multiset(levels[k].parts[j])
    ensures Nested(Advance(levels) + [new1])
  {
    hide Offset, Concat, OrderedParts;
    AdvanceNested(levels);
  }

  /** The top level is finished: its sub-areas are, and its LCPs were calculated. */
  lemma LevelFinished(m: Mem, m': Mem, levels: seq<Level>, kids: set<Child>)
    requires Chain(m, levels, kids) && |levels| >= 2
    requires forall c | c in kids :: c.level < |levels| - 1
    requires Within(m, m', Top(levels).lo, |Concat(Top(levels).parts)|)
    requires forall j | 0 <= j < |Top(levels).parts| :: Done(m', Top(levels).lo + Offset(Top(levels).parts, j), Top(levels).parts[j])
    requires Top(levels).lo <= |m'.orig| && BoundariesExact(m', Top(levels).lo, Top(levels).parts)
    ensures Chain(m', levels[..|levels| - 1], kids)
  {
    hide Done, At, Within, BoundariesExact, OrderedParts;
    var k := |levels| - 2;
    var j := levels[k].next - 1;
    var levels' := levels[..k + 1];
    assert levels[k + 1].lo == Start(levels, k, j);
    WithinValid(m, m', Top(levels).lo, |Concat(Top(levels).parts)|);
    Combine(m', Top(levels).lo, Top(levels).parts);
    DoneSamePart(m', Top(levels).lo, Concat(Top(levels).parts), levels[k].parts[j]);
    assert |Concat(Top(levels).parts)| == |multiset(Concat(Top(levels).parts))| == |levels[k].parts[j]|;
    forall k': nat, j': nat | IsPart(levels', k', j') && !Active(levels', k', j') && !(k' == k && j' == j)
      ensures PartOk(m, levels', kids, k', j')
    {
      assert PartOk(m, levels, kids, k', j');
    }
    OthersKept(m, m', levels', kids, k, j);
  }

  function Free(levels: seq<Level>, k: nat): (r: seq<Level>)
    requires k < |levels|
  {
    levels[k := levels[k].(freed := true)]
  }

  /** Level k's parts that have not been started. */
  ghost function Rest(levels: seq<Level>, k: nat): (r: set<Child>)
    requires k < |levels|
  {
    set j | levels[k].next <= j < |levels[k].parts| :: Child(k, j)
  }

  lemma FreeNested(levels: seq<Level>, k: nat)
    requires Nested(levels) && k < |levels|
    ensures Nested(Free(levels, k))
  {
    hide OrderedParts, Offset, Concat;
  }

  lemma FreedPart(m: Mem, levels: seq<Level>, kids: set<Child>, k: nat, k': nat, j': nat)
    requires k < |levels| && IsPart(levels, k', j') && PartOk(m, levels, kids, k', j') && !levels[k].freed
    ensures PartOk(m, Free(levels, k), kids + Rest(levels, k), k', j')
  {
    hide Done, At, Offset;
  }

  /** All parts of level k that have not been started become child jobs. */
  lemma LevelFreed(m: Mem, levels: seq<Level>, kids: set<Child>, k: nat)
    requires Chain(m, levels, kids) && k < |levels| && !levels[k].freed
    ensures Chain(m, Free(levels, k), kids + Rest(levels, k))
  {
    hide Done, At, Nested;
    var levels', kids' := Free(levels, k), kids + Rest(levels, k);
    FreeNested(levels, k);
    forall k': nat, j': nat | IsPart(levels', k', j') && !Active(levels', k', j') ensures PartOk(m, levels', kids', k', j') {
      assert PartOk(m, levels, kids, k', j');
      FreedPart(m, levels, kids, k, k', j');
    }
  }

  /** A child job has sorted its part. */
  lemma ChildFinished(m: Mem, m': Mem, levels: seq<Level>, kids: set<Child>, c: Child)
    requires Chain(m, levels, kids) && c in kids
    requires IsPart(levels, c.level, c.part)
    requires Within(m, m', Start(levels, c.level, c.part), |levels[c.level].parts[c.part]|)
    requires Done(m', Start(levels, c.level, c.part), levels[c.level].parts[c.part])
    ensures Chain(m', levels, kids - {c})
  {
    hide Done, At, Within;
    OthersKept(m, m', levels, kids, c.level, c.part);
    WithinValid(m, m', Start(levels, c.level, c.part), |levels[c.level].parts[c.part]|);
    forall k': nat, j': nat | IsPart(levels, k', j') && !Active(levels, k', j') ensures PartOk(m', levels, kids - {c}, k', j') {
      if !(k' == c.level && j' == c.part) {
        assert PartOk(m', levels, kids, k', j');
      }
    }
  }
}
