/** Why it is enough to run every child job as one step: jobs on disjoint areas do not
    see each other, so whatever memory an interleaving of their steps reaches is also
    reached by running the jobs one after the other. */
module Interleaving {
  import opened Areas
  import opened Strings

  /** A step of a job: which memories it may lead from and to. */
  datatype Move = Move(job: nat, act: (Mem, Mem) -> bool)

  /** Where a job works: cells [lo, lo + n), without the LCP entry at lo. */
  datatype Area = Area(lo: nat, n: nat)

  ghost predicate Apart(a: Area, b: Area) {
    a.lo + a.n <= b.lo || b.lo + b.n <= a.lo
  }

  /** The two memories look the same to a job on this area. */
  ghost predicate SameIn(m: Mem, k: Mem, a: Area) {
    && ValidMem(m) && ValidMem(k) && |m.orig| == |k.orig|
    && (forall p | 0 <= p < |m.orig| && a.lo <= p < a.lo + a.n :: k.orig[p] == m.orig[p] && k.shadow[p] == m.shadow[p])
    && (forall p | 0 <= p < |m.orig| && a.lo < p < a.lo + a.n :: k.lcp[p] == m.lcp[p])
  }

  /** k with the area as it is in m. */
  ghost function Splice(k: Mem, m: Mem, a: Area): (r: Mem)
    requires ValidMem(m) && ValidMem(k) && |m.orig| == |k.orig|
    ensures ValidMem(r) && |r.orig| == |k.orig|
  {
    var n := |k.orig|;
    Mem(seq(n, p requires 0 <= p < n => if a.lo <= p < a.lo + a.n then m.orig[p] else k.orig[p]),
        seq(n, p requires 0 <= p < n => if a.lo <= p < a.lo + a.n then m.shadow[p] else k.shadow[p]),
        seq(n, p requires 0 <= p < n => if a.lo < p < a.lo + a.n then m.lcp[p] else k.lcp[p]))
  }

  /** The step neither changes nor looks at anything outside the area. */
  ghost predicate Local(act: (Mem, Mem) -> bool, a: Area) {
    forall m, m' | act(m, m') :: Within(m, m', a.lo, a.n) && Portable(act, a, m, m')
  }

  /** From any memory that looks the same, the same happens to the area. */
  ghost predicate Portable(act: (Mem, Mem) -> bool, a: Area, m: Mem, m': Mem)
    requires ValidMem(m) && ValidMem(m') && |m.orig| == |m'.orig|
  {
    forall k | SameIn(m, k, a) :: act(k, Splice(k, m', a))
  }

  /** Steps on disjoint areas change places. */
  lemma Swap(e: (Mem, Mem) -> bool, a: Area, f: (Mem, Mem) -> bool, b: Area, m: Mem, m1: Mem, m2: Mem)
    requires Local(e, a) && Local(f, b) && Apart(a, b) && e(m, m1) && f(m1, m2)
    ensures ValidMem(m) && ValidMem(m2) && |m.orig| == |m2.orig|
    ensures f(m, Splice(m, m2, b)) && e(Splice(m, m2, b), m2)
  {
    assert Within(m, m1, a.lo, a.n) && Within(m1, m2, b.lo, b.n);
    assert Portable(e, a, m, m1) && Portable(f, b, m1, m2) && SameIn(m1, m, b);
    var k := Splice(m, m2, b);
    assert SameIn(m, k, a);
    assert Splice(k, m1, a) == m2;
  }

  /** A sequence of steps leads from m to m'. */
  ghost predicate Leads(s: seq<Move>, m: Mem, m': Mem) {
    if s == [] then m == m' else exists x :: s[0].act(m, x) && Leads(s[1..], x, m')
  }

  /** Every step is local to the area of its job. */
  ghost predicate OnAreas(s: seq<Move>, area: nat -> Area) {
    forall i | 0 <= i < |s| :: Local(s[i].act, area(s[i].job))
  }

  ghost predicate AllApart(area: nat -> Area) {
    forall i, j | i != j :: Apart(area(i), area(j))
  }

  lemma {:induction false} LeadsSplit(s: seq<Move>, t: seq<Move>, m: Mem, m': Mem) returns (x: Mem)
    requires Leads(s + t, m, m')
    ensures Leads(s, m, x) && Leads(t, x, m')
  {
    if s == [] {
      assert s + t == t;
      x := m;
    } else {
      assert (s + t)[1..] == s[1..] + t;
      var y :| s[0].act(m, y) && Leads(s[1..] + t, y, m');
      x := LeadsSplit(s[1..], t, y, m');
    }
  }

  lemma {:induction false} LeadsJoin(s: seq<Move>, t: seq<Move>, m: Mem, x: Mem, m': Mem)
    requires Leads(s, m, x) && Leads(t, x, m')
    ensures Leads(s + t, m, m')
  {
    if s == [] {
      assert s + t == t;
    } else {
      assert (s + t)[1..] == s[1..] + t;
      var y :| s[0].act(m, y) && Leads(s[1..], y, x);
      LeadsJoin(s[1..], t, y, x, m');
    }
  }

  /** One step of a job passes all steps of other jobs before it. */
  lemma {:induction false} MoveFront(s: seq<Move>, e: Move, area: nat -> Area, m: Mem, m': Mem)
    requires Leads(s + [e], m, m') && OnAreas(s + [e], area) && AllApart(area) && forall i | 0 <= i < |s| :: s[i].job != e.job
    ensures Leads([e] + s, m, m')
  {
    hide Local, Apart, Splice;
    if s == [] {
      assert s + [e] == [e] + s;
    } else {
      var h, r := s[0], s[1..];
      assert (s + [e])[1..] == r + [e] && (s + [e])[0] == h && (s + [e])[|s|] == e;
      var x :| h.act(m, x) && Leads(r + [e], x, m');
      assert forall i | 0 <= i < |r + [e]| :: (r + [e])[i] == (s + [e])[i + 1];
      MoveFront(r, e, area, x, m');
      assert ([e] + r)[1..] == r;
      var y :| e.act(x, y) && Leads(r, y, m');
      Swap(h.act, area(h.job), e.act, area(e.job), m, x, y);
      var z := Splice(m, y, area(e.job));
      assert s == [h] + r && Leads(s, z, m');
      assert ([e] + s)[1..] == s;
    }
  }

  ghost function Of(s: seq<Move>, j: nat): (t: seq<Move>) {
    if s == [] then [] else Of(s[..|s| - 1], j) + if s[|s| - 1].job == j then [s[|s| - 1]] else []
  }

  ghost function Others(s: seq<Move>, j: nat): (t: seq<Move>) {
    if s == [] then [] else Others(s[..|s| - 1], j) + if s[|s| - 1].job == j then [] else [s[|s| - 1]]
  }

  lemma OneMore(r: seq<Move>, e: Move, j: nat)
    ensures Of(r + [e], j) == if e.job == j then Of(r, j) + [e] else Of(r, j)
    ensures Others(r + [e], j) == if e.job == j then Others(r, j) else Others(r, j) + [e]
  {
    var s := r + [e];
    assert s[..|s| - 1] == r;
  }

  lemma None(j: nat)
    ensures Of([], j) == [] && Others([], j) == []
  {
  }

  lemma {:induction false} OthersMember(s: seq<Move>, j: nat)
    ensures forall x | x in Others(s, j) :: x in s && x.job != j
  {
    if s != [] {
      OthersMember(s[..|s| - 1], j);
    }
  }

  /** A job is atomic: all its steps may come first, the others after them, each in
      their own order. */
  lemma {:induction false} Atomic(s: seq<Move>, j: nat, area: nat -> Area, m: Mem, m': Mem)
    requires Leads(s, m, m') && OnAreas(s, area) && AllApart(area)
    ensures Leads(Of(s, j) + Others(s, j), m, m')
    decreases |s|
  {
    hide Local, Apart, Leads, Of, Others, OnAreas, AllApart;
    None(j);
    if s == [] {
      assert s == Of(s, j) + Others(s, j);
    } else {
      var r, e := s[..|s| - 1], s[|s| - 1];
      assert s == r + [e];
      OneMore(r, e, j);
      var x := LeadsSplit(r, [e], m, m');
      SomeOnAreas(s, r, area);
      Atomic(r, j, area, m, x);
      if e.job == j {
        OthersMember(r, j);
        SomeOnAreas(s, Others(r, j) + [e], area);
        OwnStep(Of(r, j), Others(r, j), e, area, m, x, m');
      } else {
        LeadsJoin(Of(r, j) + Others(r, j), [e], m, x, m');
        assert (Of(r, j) + Others(r, j)) + [e] == Of(r, j) + (Others(r, j) + [e]);
      }
    }
  }

  /** The next step of the job joins its other steps a. */
  lemma OwnStep(a: seq<Move>, b: seq<Move>, e: Move, area: nat -> Area, m: Mem, x: Mem, m': Mem)
    requires Leads(a + b, m, x) && Leads([e], x, m') && OnAreas(b + [e], area) && AllApart(area)
    requires forall y | y in b :: y.job != e.job
    ensures Leads((a + [e]) + b, m, m')
  {
    hide Leads, OnAreas, AllApart;
    var y := LeadsSplit(a, b, m, x);
    LeadsJoin(b, [e], y, x, m');
    forall i | 0 <= i < |b| ensures b[i].job != e.job {
      assert b[i] in b;
    }
    MoveFront(b, e, area, y, m');
    LeadsJoin(a, [e] + b, m, y, m');
    assert a + ([e] + b) == (a + [e]) + b;
  }

  lemma SomeOnAreas(s: seq<Move>, b: seq<Move>, area: nat -> Area)
    requires OnAreas(s, area) && forall i | 0 <= i < |b| :: b[i] in s
    ensures OnAreas(b, area)
  {
    hide Local;
    forall i | 0 <= i < |b| ensures Local(b[i].act, area(b[i].job)) {
      assert b[i] in s;
    }
  }

  /** The steps of jobs n down to 0, job after job. */
  ghost function ByJob(s: seq<Move>, n: nat): (t: seq<Move>) {
    if n == 0 then Of(s, 0) else Of(s, n) + ByJob(s, n - 1)
  }

  lemma {:induction false} OfAll(s: seq<Move>, j: nat)
    requires forall i | 0 <= i < |s| :: s[i].job == j
    ensures Of(s, j) == s
  {
    if s != [] {
      OfAll(s[..|s| - 1], j);
    }
  }

  lemma {:induction false} OfOthers(s: seq<Move>, i: nat, j: nat)
    requires i != j
    ensures Of(Others(s, j), i) == Of(s, i)
    decreases |s|
  {
    hide Of, Others;
    None(i);
    None(j);
    if s != [] {
      var r, e := s[..|s| - 1], s[|s| - 1];
      assert s == r + [e];
      OfOthers(r, i, j);
      OneMore(r, e, i);
      OneMore(r, e, j);
      OneMore(Others(r, j), e, i);
    }
  }

  lemma {:induction false} ByJobOthers(s: seq<Move>, n: nat, j: nat)
    requires n < j
    ensures ByJob(Others(s, j), n) == ByJob(s, n)
  {
    hide Of, Others;
    OfOthers(s, n, j);
    if n > 0 {
      ByJobOthers(s, n - 1, j);
    }
  }

  /** Every memory that an interleaving of jobs 0 to n on disjoint areas can reach is
      reached by running the jobs one after the other. */
  lemma {:induction false} OneAfterTheOther(s: seq<Move>, n: nat, area: nat -> Area, m: Mem, m': Mem)
    requires Leads(s, m, m') && OnAreas(s, area) && AllApart(area) && forall i | 0 <= i < |s| :: s[i].job <= n
    ensures Leads(ByJob(s, n), m, m')
    decreases n
  {
    hide Local, Apart, Leads, Of, Others;
    if n > 0 {
      var a, b := Of(s, n), Others(s, n);
      Atomic(s, n, area, m, m');
      var x := LeadsSplit(a, b, m, m');
      OthersMember(s, n);
      SomeOnAreas(s, b, area);
      forall i | 0 <= i < |b| ensures b[i].job <= n - 1 {
        assert b[i] in b && b[i] in s;
      }
      OneAfterTheOther(b, n - 1, area, x, m');
      ByJobOthers(s, n - 1, n);
      LeadsJoin(a, ByJob(b, n - 1), m, x, m');
    } else {
      OfAll(s, 0);
    }
  }

  // ---------------------------------------------------- what pS5 jobs promise

  /** The effect of a job on strings s with all its child jobs. */
  ghost function Effect(lo: nat, s: seq<Str>, flip: bool): (act: (Mem, Mem) -> bool) {
    (m: Mem, m': Mem) => ValidMem(m) && At(Side(m, flip), lo, s) && Done(m', lo, s) && Within(m, m', lo, |s|)
  }

  lemma EffectLocal(lo: nat, s: seq<Str>, flip: bool)
    ensures Local(Effect(lo, s, flip), Area(lo, |s|))
  {
    hide Leq, Lcp, At, Done;
    var act, a := Effect(lo, s, flip), Area(lo, |s|);
    forall m, m' | act(m, m') ensures Within(m, m', a.lo, a.n) && Portable(act, a, m, m') {
      EffectPorts(lo, s, flip, m, m');
    }
  }

  lemma EffectPorts(lo: nat, s: seq<Str>, flip: bool, m: Mem, m': Mem)
    requires ValidMem(m) && ValidMem(m') && |m.orig| == |m'.orig| && Effect(lo, s, flip)(m, m')
    ensures Portable(Effect(lo, s, flip), Area(lo, |s|), m, m')
  {
    hide Leq, Lcp, At, Done, Within;
    var a := Area(lo, |s|);
    forall k | SameIn(m, k, a) ensures Effect(lo, s, flip)(k, Splice(k, m', a)) {
      AtPorts(m, k, lo, s, flip);
      DonePorts(k, m', lo, s);
      SpliceWithin(k, m', a);
    }
  }

  lemma AtPorts(m: Mem, k: Mem, lo: nat, s: seq<Str>, flip: bool)
    requires At(Side(m, flip), lo, s) && SameIn(m, k, Area(lo, |s|))
    ensures At(Side(k, flip), lo, s)
  {
  }

  lemma DonePorts(k: Mem, m': Mem, lo: nat, s: seq<Str>)
    requires Done(m', lo, s) && ValidMem(k) && |k.orig| == |m'.orig|
    ensures Done(Splice(k, m', Area(lo, |s|)), lo, s)
  {
    hide Leq, Lcp;
    var r := Splice(k, m', Area(lo, |s|));
    assert r.orig[lo..lo + |s|] == m'.orig[lo..lo + |s|];
  }

  lemma SpliceWithin(k: Mem, m': Mem, a: Area)
    requires ValidMem(k) && ValidMem(m') && |k.orig| == |m'.orig|
    ensures Within(k, Splice(k, m', a), a.lo, a.n)
  {
  }

  // ------------------------------------------- the sub-areas of one sorting step

  /** Sub-area j of a step; steps on it are numbered j, whether the sorting job itself
      takes them or a child job with its descendants. */
  ghost function PartArea(lo: nat, parts: seq<seq<Str>>): nat -> Area {
    (j: nat) => if j < |parts| then Area(lo + Offset(parts, j), |parts[j]|) else Area(lo + |Concat(parts)|, 0)
  }

  lemma PartAreasApart(lo: nat, parts: seq<seq<Str>>)
    ensures AllApart(PartArea(lo, parts))
  {
    forall i: nat, j: nat | i != j ensures Apart(PartArea(lo, parts)(i), PartArea(lo, parts)(j)) {
      PartInside(lo, parts, i);
      PartInside(lo, parts, j);
      if i < j && j < |parts| { OffsetMono(parts, i, j); }
      if j < i && i < |parts| { OffsetMono(parts, j, i); }
    }
  }

  lemma PartInside(lo: nat, parts: seq<seq<Str>>, j: nat)
    ensures j < |parts| ==> Offset(parts, j) + |parts[j]| <= |Concat(parts)|
  {
    if j < |parts| {
      OffsetNext(parts, j);
      OffsetMono(parts, j + 1, |parts|);
    }
  }

  /** Taken without a break, the steps on sub-area j sort it. */
  ghost predicate SortsPart(s: seq<Move>, lo: nat, parts: seq<seq<Str>>, flip: bool, j: nat)
    requires j < |parts|
  {
    forall m, m' | Leads(Of(s, j), m, m') :: PartSorts(m, m', lo + Offset(parts, j), parts[j], flip)
  }

  ghost predicate PartSorts(m: Mem, m': Mem, at: nat, part: seq<Str>, flip: bool) {
    At(Side(m, flip), at, part) ==> Done(m', at, part) && Within(m, m', at, |part|)
  }

  /** The sub-areas behind n are finished, the others wait. */
  ghost predicate Stands(m: Mem, lo: nat, parts: seq<seq<Str>>, flip: bool, j: nat, n: int)
    requires j < |parts|
  {
    if j > n then Done(m, lo + Offset(parts, j), parts[j]) else At(Side(m, flip), lo + Offset(parts, j), parts[j])
  }

  ghost predicate AllStand(m: Mem, lo: nat, parts: seq<seq<Str>>, flip: bool, n: int) {
    forall j | 0 <= j < |parts| :: Stands(m, lo, parts, flip, j, n)
  }

  /** Sorting sub-area n leaves the others as they were. */
  lemma OthersStand(m: Mem, m': Mem, lo: nat, parts: seq<seq<Str>>, flip: bool, n: nat, i: nat)
    requires n < |parts| && i < |parts| && i != n && Within(m, m', lo + Offset(parts, n), |parts[n]|)
    requires Stands(m, lo, parts, flip, i, n)
    ensures Stands(m', lo, parts, flip, i, n - 1)
  {
    hide At, Done, Within, Offset;
    if i < n { OffsetMono(parts, i, n); } else { OffsetMono(parts, n, i); }
    var at, k := lo + Offset(parts, n), |parts[n]|;
    if i > n {
      DoneElsewhere(m, m', at, k, lo + Offset(parts, i), parts[i]);
    } else {
      AtElsewhere(m, m', at, k, lo + Offset(parts, i), parts[i], flip);
    }
  }

  lemma {:induction false} PartByPart(s: seq<Move>, lo: nat, parts: seq<seq<Str>>, flip: bool, n: nat, m: Mem, m': Mem)
    requires n < |parts| && Leads(ByJob(s, n), m, m') && forall j | 0 <= j < |parts| :: SortsPart(s, lo, parts, flip, j)
    requires AllStand(m, lo, parts, flip, n)
    ensures AllStand(m', lo, parts, flip, -1)
  {
    hide Leads, Of, At, Done, Within, Offset;
    var x := if n == 0 then m' else LeadsSplitAt(s, n, m, m');
    assert SortsPart(s, lo, parts, flip, n) && Stands(m, lo, parts, flip, n, n);
    assert Leads(Of(s, n), m, x);
    assert PartSorts(m, x, lo + Offset(parts, n), parts[n], flip);
    var u := n - 1;
    forall i | 0 <= i < |parts| ensures Stands(x, lo, parts, flip, i, u) {
      if i != n {
        assert Stands(m, lo, parts, flip, i, n);
        OthersStand(m, x, lo, parts, flip, n, i);
      }
    }
    if n > 0 {
      PartByPart(s, lo, parts, flip, n - 1, x, m');
    }
  }

  ghost function LeadsSplitAt(s: seq<Move>, n: nat, m: Mem, m': Mem): (x: Mem)
    requires n > 0 && Leads(ByJob(s, n), m, m')
    ensures Leads(Of(s, n), m, x) && Leads(ByJob(s, n - 1), x, m')
  {
    MiddleExists(s, n, m, m');
    var x :| Leads(Of(s, n), m, x) && Leads(ByJob(s, n - 1), x, m');
    x
  }

  lemma MiddleExists(s: seq<Move>, n: nat, m: Mem, m': Mem)
    requires n > 0 && Leads(ByJob(s, n), m, m')
    ensures exists x :: Leads(Of(s, n), m, x) && Leads(ByJob(s, n - 1), x, m')
  {
    var x := LeadsSplit(Of(s, n), ByJob(s, n - 1), m, m');
  }

  /** A sorting job and all its child jobs, interleaved step by step: if the steps on
      every sub-area sort it when taken without a break, then every interleaving of
      all of them finishes all sub-areas. */
  lemma StepInterleaved(s: seq<Move>, lo: nat, parts: seq<seq<Str>>, flip: bool, m: Mem, m': Mem)
    requires parts != [] && Leads(s, m, m') && OnAreas(s, PartArea(lo, parts)) && forall i | 0 <= i < |s| :: s[i].job < |parts|
    requires forall j | 0 <= j < |parts| :: SortsPart(s, lo, parts, flip, j)
    requires forall j | 0 <= j < |parts| :: At(Side(m, flip), lo + Offset(parts, j), parts[j])
    ensures forall j | 0 <= j < |parts| :: Done(m', lo + Offset(parts, j), parts[j])
  {
    hide Leads, Of, ByJob, At, Done, Within, Offset, Local, Apart;
    PartAreasApart(lo, parts);
    OneAfterTheOther(s, |parts| - 1, PartArea(lo, parts), m, m');
    var n := |parts| - 1;
    assert AllStand(m, lo, parts, flip, n);
    PartByPart(s, lo, parts, flip, n, m, m');
    forall j | 0 <= j < |parts| ensures Done(m', lo + Offset(parts, j), parts[j]) {
      assert Stands(m', lo, parts, flip, j, -1);
    }
  }
}
