/** String, shadow and LCP arrays, and the base sorters on an area of them. */
module Stores {
  import opened Areas
  import opened Cells
  import opened LcpInsertion
  import opened StableSort
  import opened Strings

  /** The arrays that all string pointers of one sort share. */
  datatype Store = Store(orig: array<Str>, shadow: array<Str>, lcp: array<nat>)

  predicate ValidStore(st: Store) {
    st.orig != st.shadow && st.orig.Length == st.shadow.Length == st.lcp.Length
  }

  function Active(st: Store, flip: bool): (a: array<Str>) {
    if flip then st.shadow else st.orig
  }

  ghost function Snap(st: Store): (m: Mem)
    reads st.orig, st.shadow, st.lcp
  {
    Mem(st.orig[..], st.shadow[..], st.lcp[..])
  }

  lemma SnapHolds(st: Store, flip: bool, lo: nat, s: seq<Str>)
    requires ValidStore(st)
    ensures At(Side(Snap(st), flip), lo, s) <==> Holds(Active(st, flip), lo, s)
    ensures ValidMem(Snap(st)) && |Snap(st).orig| == st.orig.Length
  {
    var a, b := Active(st, flip), Side(Snap(st), flip);
    assert b == a[..];
    if Holds(a, lo, s) {
      forall i | 0 <= i < |s| ensures b[lo + i] == s[i] {
        assert a[lo + i] == s[i];
      }
    }
  }

  /** Only cells [lo, lo + n) differ from what they were. */
  ghost predicate Kept<T>(a: array<T>, before: seq<T>, lo: nat, n: nat)
    reads a
  {
    a.Length == |before| && forall p | 0 <= p < a.Length && !(lo <= p < lo + n) :: a[p] == before[p]
  }

  lemma SnapWithin(m: Mem, st: Store, lo: nat, n: nat)
    requires ValidStore(st) && Kept(st.orig, m.orig, lo, n) && Kept(st.shadow, m.shadow, lo, n)
    requires |m.lcp| == st.lcp.Length && forall p | 0 <= p < st.lcp.Length && !(lo < p < lo + n) :: st.lcp[p] == m.lcp[p]
    ensures Within(m, Snap(st), lo, n)
  {
  }

  lemma SnapDone(st: Store, lo: nat, s: seq<Str>, t: seq<Str>)
    requires ValidStore(st) && multiset(s) == multiset(t) && |s| == |t| && Sorted(t) && Holds(st.orig, lo, t)
    requires forall k | 0 < k < |t| :: st.lcp[lo + k] == Lcp(t[k - 1], t[k])
    ensures Done(Snap(st), lo, s)
  {
    hide Leq, Lcp;
    var m := Snap(st);
    var hi := lo + |t|;
    assert m.orig[lo..hi] == t;
    forall p, q | lo <= p < q < hi ensures Leq(m.orig[p], m.orig[q]) {
      assert m.orig[p] == t[p - lo] && m.orig[q] == t[q - lo];
    }
    forall p | lo < p < hi ensures m.lcp[p] == Lcp(m.orig[p - 1], m.orig[p]) {
      assert m.lcp[p] == st.lcp[lo + (p - lo)];
      assert m.orig[p] == t[p - lo] && m.orig[p - 1] == t[p - lo - 1];
    }
  }

  /** copy_back(): the strings of a flipped area return to the output array. */
  method CopyBack(st: Store, lo: nat, n: nat, flip: bool, ghost s: seq<Str>)
    requires ValidStore(st) && |s| == n && At(Side(Snap(st), flip), lo, s)
    modifies st.orig
    ensures At(Snap(st).orig, lo, s) && Within(old(Snap(st)), Snap(st), lo, n)
  {
    ghost var m := Snap(st);
    SnapHolds(st, flip, lo, s);
    if flip {
      CopyRun(st.shadow, lo, lo + n, st.orig, lo);
    }
    assert Holds(st.orig, lo, s);
    SnapWithin(m, st, lo, n);
  }

  /** insertion_sort() on an area that is not flipped. */
  method InsertionSortArea(st: Store, lo: nat, n: nat, depth: nat, ghost s: seq<Str>)
    requires ValidStore(st) && |s| == n && At(Snap(st).orig, lo, s) && SharePrefix(s, depth)
    modifies st.orig, st.lcp
    ensures Done(Snap(st), lo, s) && Within(old(Snap(st)), Snap(st), lo, n)
  {
    hide Lcp, StableSorted, SharePrefix, Done, Within;
    ghost var m := Snap(st);
    SnapHolds(st, false, lo, s);
    ghost var t := LcpInsertionSort(st.orig, st.lcp, lo, n, depth, s);
    StableFacts(s, t);
    SnapDone(st, lo, s, t);
    SnapWithin(m, st, lo, n);
  }

  lemma StableFacts(s: seq<Str>, t: seq<Str>)
    requires StableSorted(s, t)
    ensures |s| == |t| && Sorted(t) && multiset(s) == multiset(t)
  {
    StableIsPermutation(s, t);
  }

  /** The strings are all the same text of n characters. */
  ghost predicate SameTexts(s: seq<Str>, n: nat) {
    forall i, j | 0 <= i < |s| && 0 <= j < |s| :: s[i].text == s[j].text && |s[i].text| == n
  }

  /** fill_lcp(): no comparison is needed among equal texts. */
  method FillLcp(st: Store, lo: nat, n: nat, v: nat, ghost s: seq<Str>)
    requires ValidStore(st) && |s| == n && At(Snap(st).orig, lo, s) && SameTexts(s, v)
    modifies st.lcp
    ensures Done(Snap(st), lo, s) && Within(old(Snap(st)), Snap(st), lo, n)
  {
    hide Done, Within;
    ghost var m := Snap(st);
    SnapHolds(st, false, lo, s);
    var i := 1;
    while i < n
      invariant 1 <= i && forall q | lo < q < lo + i && q < lo + n :: st.lcp[q] == v
      invariant EntriesKept(st.lcp, lo, n)
    {
      st.lcp[lo + i] := v;
      i := i + 1;
    }
    SnapWithin(m, st, lo, n);
    forall i, j | 0 <= i < |s| && 0 <= j < |s| ensures Leq(s[i], s[j]) && Lcp(s[i], s[j]) == v {
      LeqReflexive(s[i]);
      LcpUnique(s[i], s[j], v);
    }
    SnapDone(st, lo, s, s);
  }

  /** set_lcp() */
  method SetLcp(st: Store, p: nat, v: nat)
    requires ValidStore(st) && p < st.lcp.Length
    modifies st.lcp
    ensures Snap(st) == LcpSet(old(Snap(st)), p, v)
  {
    st.lcp[p] := v;
  }

  ghost function LcpSet(m: Mem, p: nat, v: nat): (m': Mem)
    requires p < |m.lcp|
  {
    m.(lcp := m.lcp[p := v])
  }

  lemma SnapLengths(st: Store)
    requires ValidStore(st)
    ensures ValidMem(Snap(st)) && |Snap(st).orig| == |Snap(st).lcp| == st.orig.Length
  {
  }

  lemma DoneSetLcp(m: Mem, p: nat, v: nat, lo: nat, part: seq<Str>)
    requires Done(m, lo, part) && p < |m.lcp| && !(lo < p < lo + |part|)
    ensures Done(LcpSet(m, p, v), lo, part)
  {
    hide Lcp, Leq;
  }

  lemma WithinSetLcp(m: Mem, p: nat, v: nat, lo: nat, n: nat)
    requires ValidMem(m) && p < |m.lcp| && lo < p < lo + n
    ensures Within(m, LcpSet(m, p, v), lo, n)
  {
  }

  lemma WithinSame(m: Mem, lo: nat, n: nat)
    requires ValidMem(m)
    ensures Within(m, m, lo, n)
  {
  }

  /** insertion_sort() of an area that is copied back first. */
  method InsertionSortBack(st: Store, lo: nat, n: nat, flip: bool, depth: nat, ghost s: seq<Str>)
    requires ValidStore(st) && |s| == n && At(Side(Snap(st), flip), lo, s) && SharePrefix(s, depth)
    modifies st.orig, st.lcp
    ensures Done(Snap(st), lo, s) && Within(old(Snap(st)), Snap(st), lo, n)
  {
    hide At, Done, Within, SharePrefix;
    ghost var m := Snap(st);
    CopyBack(st, lo, n, flip, s);
    ghost var m1 := Snap(st);
    InsertionSortArea(st, lo, n, depth, s);
    WithinTrans(m, m1, Snap(st), lo, n, lo, n);
  }

  /** An area of equal texts: copy_back() and fill_lcp(). */
  method FillBack(st: Store, lo: nat, n: nat, flip: bool, v: nat, ghost s: seq<Str>)
    requires ValidStore(st) && |s| == n && At(Side(Snap(st), flip), lo, s) && SameTexts(s, v)
    modifies st.orig, st.lcp
    ensures Done(Snap(st), lo, s) && Within(old(Snap(st)), Snap(st), lo, n)
  {
    hide At, Done, Within, SameTexts;
    ghost var m := Snap(st);
    CopyBack(st, lo, n, flip, s);
    ghost var m1 := Snap(st);
    FillLcp(st, lo, n, v, s);
    WithinTrans(m, m1, Snap(st), lo, n, lo, n);
  }
}
