/** What string sample sort and cached multikey quicksort promise about an area
    of the string array, and how the promises of a step's sub-areas add up. */
module Areas {
  import opened Strings

  /** The output array, its shadow and the LCP array. */
  datatype Mem = Mem(orig: seq<Str>, shadow: seq<Str>, lcp: seq<nat>)

  ghost predicate ValidMem(m: Mem) {
    |m.orig| == |m.shadow| == |m.lcp|
  }

  ghost function Side(m: Mem, flip: bool): (s: seq<Str>) {
    if flip then m.shadow else m.orig
  }

  ghost predicate At(s: seq<Str>, lo: nat, part: seq<Str>) {
    lo + |part| <= |s| && forall i | 0 <= i < |part| :: s[lo + i] == part[i]
  }

  /** Cells [lo, lo + |part|) of the output array hold part, sorted, and the LCP
      entries inside are exact; entry lo belongs to whoever owns the area before. */
  ghost predicate Done(m: Mem, lo: nat, part: seq<Str>) {
    && ValidMem(m) && lo + |part| <= |m.orig|
    && Holding(m.orig, lo, part) && Increasing(m, lo, lo + |part|)
  }

  ghost predicate Holding(s: seq<Str>, lo: nat, part: seq<Str>) {
    lo + |part| <= |s| && multiset(s[lo..lo + |part|]) == multiset(part)
  }

  ghost predicate Increasing(m: Mem, lo: nat, hi: nat) {
    && ValidMem(m) && lo <= hi <= |m.orig|
    && (forall p, q | lo <= p < q < hi :: Leq(m.orig[p], m.orig[q]))
    && (forall p | lo < p < hi :: m.lcp[p] == Lcp(m.orig[p - 1], m.orig[p]))
  }

  /** Nothing outside the area changed, nor did its LCP entry lo. */
  ghost predicate Within(m: Mem, m': Mem, lo: nat, n: nat) {
    && ValidMem(m) && ValidMem(m') && |m.orig| == |m'.orig|
    && (forall p | 0 <= p < |m.orig| && !(lo <= p < lo + n) :: m'.orig[p] == m.orig[p] && m'.shadow[p] == m.shadow[p])
    && (forall p | 0 <= p < |m.orig| && !(lo < p < lo + n) :: m'.lcp[p] == m.lcp[p])
  }

  lemma WithinTrans(m: Mem, m1: Mem, m2: Mem, lo: nat, n: nat, lo': nat, n': nat)
    requires Within(m, m1, lo, n) && Within(m1, m2, lo', n')
    requires lo <= lo' && lo' + n' <= lo + n
    ensures Within(m, m2, lo, n)
  {
  }

  lemma DoneElsewhere(m: Mem, m': Mem, lo: nat, n: nat, at: nat, part: seq<Str>)
    requires Within(m, m', lo, n) && Done(m, at, part) && (at + |part| <= lo || lo + n <= at)
    ensures Done(m', at, part)
  {
    assert m'.orig[at..at + |part|] == m.orig[at..at + |part|];
  }

  lemma AtElsewhere(m: Mem, m': Mem, lo: nat, n: nat, at: nat, part: seq<Str>, flip: bool)
    requires Within(m, m', lo, n) && At(Side(m, flip), at, part) && (at + |part| <= lo || lo + n <= at)
    ensures At(Side(m', flip), at, part)
  {
  }

  lemma DoneSamePart(m: Mem, lo: nat, part: seq<Str>, part': seq<Str>)
    requires Done(m, lo, part) && multiset(part) == multiset(part')
    ensures Done(m, lo, part')
  {
    assert |part| == |multiset(part)| == |part'|;
  }

  lemma DoneMember(m: Mem, lo: nat, part: seq<Str>, p: nat)
    requires Done(m, lo, part) && lo <= p < lo + |part|
    ensures m.orig[p] in part
  {
    assert m.orig[p] == m.orig[lo..lo + |part|][p - lo];
    assert m.orig[p] in multiset(m.orig[lo..lo + |part|]);
    assert m.orig[p] in multiset(part);
  }

  ghost predicate AllLess(a: seq<Str>, b: seq<Str>) {
    forall x, y | x in a && y in b :: Less(x, y)
  }

  lemma HoldingJoin(s: seq<Str>, lo: nat, a: seq<Str>, b: seq<Str>)
    requires Holding(s, lo, a) && Holding(s, lo + |a|, b)
    ensures Holding(s, lo, a + b)
  {
    var mid, hi := lo + |a|, lo + |a| + |b|;
    assert s[lo..hi] == s[lo..mid] + s[mid..hi];
  }

  lemma IncreasingJoin(m: Mem, lo: nat, mid: nat, hi: nat)
    requires Increasing(m, lo, mid) && Increasing(m, mid, hi)
    requires lo < mid < hi ==> m.lcp[mid] == Lcp(m.orig[mid - 1], m.orig[mid])
    requires forall p, q | lo <= p < mid && mid <= q < hi :: Leq(m.orig[p], m.orig[q])
    ensures Increasing(m, lo, hi)
  {
    hide Leq, Lcp;
  }

  /** Two finished neighbours with an exact boundary entry are one finished area. */
  lemma DoneJoin(m: Mem, lo: nat, a: seq<Str>, b: seq<Str>)
    requires Done(m, lo, a) && Done(m, lo + |a|, b) && AllLess(a, b)
    requires a != [] && b != [] ==> m.lcp[lo + |a|] == Lcp(m.orig[lo + |a| - 1], m.orig[lo + |a|])
    ensures Done(m, lo, a + b)
  {
    hide Holding, Increasing, Leq, Less, Lcp;
    var mid, hi := lo + |a|, lo + |a| + |b|;
    HoldingJoin(m.orig, lo, a, b);
    forall p, q | lo <= p < mid && mid <= q < hi ensures Leq(m.orig[p], m.orig[q]) {
      DoneMember(m, lo, a, p);
      DoneMember(m, mid, b, q);
      assert Less(m.orig[p], m.orig[q]);
      LeqTotal(m.orig[p], m.orig[q]);
    }
    IncreasingJoin(m, lo, mid, hi);
  }

  // ------------------------------------------------------ parts of a step

  ghost function Concat(parts: seq<seq<Str>>): (s: seq<Str>) {
    if parts == [] then [] else Concat(parts[..|parts| - 1]) + parts[|parts| - 1]
  }

  lemma ConcatAppend(p: seq<seq<Str>>, x: seq<Str>)
    ensures Concat(p + [x]) == Concat(p) + x
  {
    assert (p + [x])[..|p|] == p;
  }

  /** Offset of part j. */
  ghost function Offset(parts: seq<seq<Str>>, j: nat): (r: nat)
    requires j <= |parts|
  {
    |Concat(parts[..j])|
  }

  lemma OffsetNext(parts: seq<seq<Str>>, j: nat)
    requires j < |parts|
    ensures Offset(parts, j + 1) == Offset(parts, j) + |parts[j]|
  {
    assert parts[..j + 1][..j] == parts[..j];
  }

  lemma {:induction false} OffsetMono(parts: seq<seq<Str>>, i: nat, j: nat)
    requires i <= j <= |parts|
    ensures Offset(parts, i) <= Offset(parts, j) <= |Concat(parts)|
    ensures i < j ==> Offset(parts, i) + |parts[i]| <= Offset(parts, j)
    decreases j - i
  {
    if i < j {
      OffsetNext(parts, i);
      OffsetMono(parts, i + 1, j);
    } else {
      OffsetTotal(parts, j);
    }
  }

  lemma {:induction false} OffsetTotal(parts: seq<seq<Str>>, j: nat)
    requires j <= |parts|
    ensures Offset(parts, j) <= |Concat(parts)|
    ensures j == |parts| ==> Offset(parts, j) == |Concat(parts)|
    decreases |parts| - j
  {
    if j == |parts| {
      assert parts[..j] == parts;
    } else {
      OffsetNext(parts, j);
      OffsetTotal(parts, j + 1);
    }
  }

  ghost predicate OrderedParts(parts: seq<seq<Str>>) {
    forall i, j | 0 <= i < j < |parts| :: AllLess(parts[i], parts[j])
  }

  /** What calculate_lcp writes: an exact entry at the start of every non-empty
      part but the first. */
  ghost predicate BoundariesExact(m: Mem, lo: nat, parts: seq<seq<Str>>) {
    forall j | 0 <= j < |parts| && parts[j] != [] && Offset(parts, j) > 0 ::
      var p := lo + Offset(parts, j); 0 < p < |m.lcp| && p < |m.orig| && m.lcp[p] == Lcp(m.orig[p - 1], m.orig[p])
  }

  lemma {:induction false} ConcatMember(parts: seq<seq<Str>>, x: Str) returns (j: nat)
    requires x in Concat(parts)
    ensures j < |parts| && x in parts[j]
  {
    var k := |parts| - 1;
    if x in parts[k] {
      j := k;
    } else {
      j := ConcatMember(parts[..k], x);
    }
  }

  lemma InitLess(parts: seq<seq<Str>>)
    requires parts != [] && OrderedParts(parts)
    ensures AllLess(Concat(parts[..|parts| - 1]), parts[|parts| - 1]) && OrderedParts(parts[..|parts| - 1])
  {
    var k := |parts| - 1;
    forall x, y | x in Concat(parts[..k]) && y in parts[k] ensures Less(x, y) {
      var j := ConcatMember(parts[..k], x);
      assert AllLess(parts[j], parts[k]);
    }
  }

  lemma OffsetInit(parts: seq<seq<Str>>, k: nat)
    requires k <= |parts|
    ensures forall j | 0 <= j <= k :: Offset(parts[..k], j) == Offset(parts, j)
  {
    forall j | 0 <= j <= k ensures Offset(parts[..k], j) == Offset(parts, j) {
      assert parts[..k][..j] == parts[..j];
    }
  }

  /** Finished parts and exact boundaries make a finished step. */
  lemma {:induction false} Combine(m: Mem, lo: nat, parts: seq<seq<Str>>)
    requires ValidMem(m) && lo <= |m.orig| && OrderedParts(parts) && BoundariesExact(m, lo, parts)
    requires forall j | 0 <= j < |parts| :: Done(m, lo + Offset(parts, j), parts[j])
    ensures Done(m, lo, Concat(parts))
  {
    hide Done, AllLess, OrderedParts, BoundariesExact, Lcp;
    if parts == [] {
      DoneEmpty(m, lo);
    } else {
      CombineStep(m, lo, parts);
      Combine(m, lo, parts[..|parts| - 1]);
      DoneJoin(m, lo, Concat(parts[..|parts| - 1]), parts[|parts| - 1]);
    }
  }

  lemma DoneEmpty(m: Mem, lo: nat)
    requires ValidMem(m) && lo <= |m.orig|
    ensures Done(m, lo, [])
  {
    assert m.orig[lo..lo + 0] == [];
  }

  lemma CombineStep(m: Mem, lo: nat, parts: seq<seq<Str>>)
    requires parts != [] && OrderedParts(parts) && BoundariesExact(m, lo, parts)
    requires forall j | 0 <= j < |parts| :: Done(m, lo + Offset(parts, j), parts[j])
    ensures var k := |parts| - 1; var init := parts[..k];
            && OrderedParts(init) && BoundariesExact(m, lo, init) && AllLess(Concat(init), parts[k])
            && (forall j | 0 <= j < k :: Done(m, lo + Offset(init, j), init[j]))
            && Done(m, lo + |Concat(init)|, parts[k])
            && (Concat(init) != [] && parts[k] != [] ==> var p := lo + |Concat(init)|; m.lcp[p] == Lcp(m.orig[p - 1], m.orig[p]))
  {
    hide Done, AllLess, Concat, Lcp;
    var k := |parts| - 1;
    InitLess(parts);
    OffsetInit(parts, k);
    assert Done(m, lo + Offset(parts, k), parts[k]);
    DoneRange(m, lo + Offset(parts, k), parts[k]);
  }

  lemma DoneRange(m: Mem, lo: nat, part: seq<Str>)
    requires Done(m, lo, part)
    ensures ValidMem(m) && lo + |part| <= |m.orig|
  {
  }
}
