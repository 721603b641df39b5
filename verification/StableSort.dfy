/** Stable sorting of string arrays: the specification, merging, and the
    insertion sort all sorters fall back to on small inputs. */
module StableSort {
  import opened Cells
  import opened Strings

  /** Left-biased merge of two sorted runs. */
  ghost function Merge(x: seq<Str>, y: seq<Str>): (z: seq<Str>)
    ensures |z| == |x| + |y|
  {
    if x == [] then y
    else if y == [] then x
    else if Leq(x[0], y[0]) then [x[0]] + Merge(x[1..], y)
    else [y[0]] + Merge(x, y[1..])
  }

  lemma MergeLeft(x: seq<Str>, y: seq<Str>)
    requires x != [] && (y == [] || Leq(x[0], y[0]))
    ensures Merge(x, y) == [x[0]] + Merge(x[1..], y)
  {
  }

  lemma MergeRight(x: seq<Str>, y: seq<Str>)
    requires y != [] && (x == [] || !Leq(x[0], y[0]))
    ensures Merge(x, y) == [y[0]] + Merge(x, y[1..])
  {
  }

  /** The elements whose text is t, in order. */
  ghost function WithText(s: seq<Str>, t: Text): (r: seq<Str>) {
    if s == [] then [] else (if s[0].text == t then [s[0]] else []) + WithText(s[1..], t)
  }

  /** out is in sorted up to equal texts, which keep their order. */
  ghost predicate StableSorted(s: seq<Str>, out: seq<Str>) {
    |s| == |out| && Sorted(out) && forall t :: WithText(out, t) == WithText(s, t)
  }

  lemma {:induction false} WithTextConcat(s: seq<Str>, u: seq<Str>, t: Text)
    ensures WithText(s + u, t) == WithText(s, t) + WithText(u, t)
  {
    hide WithText;
    if s == [] {
      assert s + u == u;
      WithTextNone(t);
    } else {
      var h, r := s[0], s[1..];
      WithTextConcat(r, u, t);
      WithTextCons(h, r, t);
      WithTextCons(h, r + u, t);
      assert s == [h] + r && s + u == [h] + (r + u);
      Regroup(if h.text == t then [h] else [], WithText(r, t), WithText(u, t));
    }
  }

  lemma WithTextNone(t: Text)
    ensures WithText([], t) == []
  {
  }

  lemma WithTextCons(h: Str, r: seq<Str>, t: Text)
    ensures WithText([h] + r, t) == (if h.text == t then [h] else []) + WithText(r, t)
  {
    assert ([h] + r)[1..] == r;
  }

  lemma Regroup(x: seq<Str>, y: seq<Str>, z: seq<Str>)
    ensures (x + y) + z == x + (y + z)
  {
  }

  lemma {:induction false} WithTextMember(s: seq<Str>, e: Str)
    ensures e in s <==> e in WithText(s, e.text)
    ensures multiset(s)[e] == multiset(WithText(s, e.text))[e]
  {
    if s != [] {
      WithTextMember(s[1..], e);
      assert s == [s[0]] + s[1..];
      assert WithText(s, e.text) == (if s[0].text == e.text then [s[0]] else []) + WithText(s[1..], e.text);
    }
  }

  /** A stable sort result is a permutation. */
  lemma StableIsPermutation(s: seq<Str>, out: seq<Str>)
    requires forall t :: WithText(out, t) == WithText(s, t)
    ensures multiset(s) == multiset(out)
  {
    forall e ensures multiset(s)[e] == multiset(out)[e] {
      WithTextMember(s, e);
      WithTextMember(out, e);
    }
  }

  lemma {:induction false} NotInWithText(s: seq<Str>, t: Text)
    requires forall i | 0 <= i < |s| :: s[i].text != t
    ensures WithText(s, t) == []
  {
    if s != [] {
      NotInWithText(s[1..], t);
    }
  }

  lemma {:induction false} MergeMembers(x: seq<Str>, y: seq<Str>, e: Str)
    ensures e in Merge(x, y) ==> e in x || e in y
  {
    if x != [] && y != [] {
      if Leq(x[0], y[0]) {
        MergeMembers(x[1..], y, e);
      } else {
        MergeMembers(x, y[1..], e);
      }
    }
  }

  lemma SortedCons(h: Str, s: seq<Str>)
    requires Sorted(s) && forall e | e in s :: Leq(h, e)
    ensures Sorted([h] + s)
  {
    var r := [h] + s;
    forall i, j | 0 <= i < j < |r| ensures Leq(r[i], r[j]) {
      assert r[j] == s[j - 1];
      if i > 0 {
        assert r[i] == s[i - 1];
      }
    }
  }

  lemma SortedHead(s: seq<Str>, e: Str)
    requires Sorted(s) && e in s
    ensures Leq(s[0], e)
  {
    LeqReflexive(e);
  }

  lemma {:induction false} MergeSorted(x: seq<Str>, y: seq<Str>)
    requires Sorted(x) && Sorted(y)
    ensures Sorted(Merge(x, y))
  {
    if x != [] && y != [] {
      var left := Leq(x[0], y[0]);
      var h := if left then x[0] else y[0];
      var x', y' := if left then x[1..] else x, if left then y else y[1..];
      MergeSorted(x', y');
      LeqTotal(x[0], y[0]);
      LeqTotal(y[0], x[0]);
      forall e | e in Merge(x', y') ensures Leq(h, e) {
        MergeMembers(x', y', e);
        if e in x {
          SortedHead(x, e);
          LcpMin(h, x[0], e);
        } else {
          SortedHead(y, e);
          LcpMin(h, y[0], e);
        }
      }
      SortedCons(h, Merge(x', y'));
    }
  }

  lemma NotBelow(x: seq<Str>, e: Str)
    requires Sorted(x) && x != [] && Less(e, x[0])
    ensures WithText(x, e.text) == []
  {
    forall i | 0 <= i < |x| ensures x[i].text != e.text {
      SortedHead(x, x[i]);
      LeqTotal(e, x[0]);
      LcpMin(e, x[0], x[i]);
      if x[i].text == e.text {
        LcpUnique(e, x[i], |e.text|);
      }
    }
    NotInWithText(x, e.text);
  }

  lemma TakesHead(x: seq<Str>, m: seq<Str>, t: Text)
    requires x != []
    ensures WithText([x[0]] + m, t) == (if x[0].text == t then [x[0]] else []) + WithText(m, t)
    ensures WithText(x, t) == (if x[0].text == t then [x[0]] else []) + WithText(x[1..], t)
  {
    hide WithText;
    WithTextCons(x[0], m, t);
    WithTextCons(x[0], x[1..], t);
    assert x == [x[0]] + x[1..];
  }

  lemma {:induction false} MergeStable(x: seq<Str>, y: seq<Str>, t: Text)
    requires Sorted(x) && Sorted(y)
    ensures WithText(Merge(x, y), t) == WithText(x, t) + WithText(y, t)
  {
    hide WithText, Leq, Less;
    if x == [] || y == [] {
      WithTextNone(t);
    } else if Leq(x[0], y[0]) {
      MergeStable(x[1..], y, t);
      TakesHead(x, Merge(x[1..], y), t);
      Regroup(if x[0].text == t then [x[0]] else [], WithText(x[1..], t), WithText(y, t));
    } else {
      MergeStable(x, y[1..], t);
      TakesHead(y, Merge(x, y[1..]), t);
      if t == y[0].text {
        LeqTotal(x[0], y[0]);
        LeqTotal(y[0], x[0]);
        NotBelow(x, y[0]);
      }
    }
  }

  /** Merging sorted runs sorts their concatenation stably. */
  lemma MergeStableSorted(x: seq<Str>, y: seq<Str>)
    requires Sorted(x) && Sorted(y)
    ensures StableSorted(x + y, Merge(x, y))
  {
    MergeSorted(x, y);
    forall t ensures WithText(Merge(x, y), t) == WithText(x + y, t) {
      MergeStable(x, y, t);
      WithTextConcat(x, y, t);
    }
  }

  /** compare(): scan from depth, which both texts must share. */
  method Compare(a: Str, b: Str, depth: nat) returns (cmp: int, lcp: nat)
    requires Agree(a, b, depth)
    ensures lcp == Lcp(a, b)
    ensures cmp <= 0 <==> Leq(a, b)
  {
    var i := depth;
    while true
      invariant Agree(a, b, i)
      decreases |a.text| - i
    {
      if Char(a, i) == 0 || Char(a, i) != Char(b, i) {
        LcpUnique(a, b, i);
        return Char(a, i) - Char(b, i), i;
      }
      i := i + 1;
    }
  }

  ghost function InsertAt(p: seq<Str>, x: Str, j: nat): (q: seq<Str>)
    requires j <= |p|
    ensures |q| == |p| + 1
  {
    p[..j] + [x] + p[j..]
  }

  lemma InsertAtIndex(p: seq<Str>, x: Str, j: nat, k: nat)
    requires j <= |p| && k <= |p|
    ensures InsertAt(p, x, j)[k] == if k < j then p[k] else if k == j then x else p[k - 1]
  {
  }

  /** j is where the insertion loop puts x into p. */
  ghost predicate Slot(p: seq<Str>, x: Str, j: nat) {
    j <= |p| && (j > 0 ==> Leq(p[j - 1], x)) && (j < |p| ==> Less(x, p[j]))
  }

  lemma InsertSorted(p: seq<Str>, x: Str, j: nat)
    requires Sorted(p) && Slot(p, x, j)
    ensures Sorted(InsertAt(p, x, j))
  {
    var q := InsertAt(p, x, j);
    forall k | 0 <= k < |p| ensures if k < j then Leq(p[k], x) else Leq(x, p[k]) {
      if k < j - 1 {
        LcpMin(p[k], p[j - 1], x);
      } else if k >= j {
        LeqTotal(x, p[j]);
        if k > j { LcpMin(x, p[j], p[k]); }
      }
    }
    assert forall k | 0 <= k < |q| && k != j :: q[k] == p[if k < j then k else k - 1];
  }

  lemma InsertTexts(p: seq<Str>, x: Str, j: nat, t: Text)
    requires Sorted(p) && Slot(p, x, j)
    ensures WithText(InsertAt(p, x, j), t) == WithText(p, t) + WithText([x], t)
  {
    hide WithText, Sorted, Leq, Less;
    WithTextConcat(p[..j] + [x], p[j..], t);
    WithTextConcat(p[..j], [x], t);
    WithTextConcat(p[..j], p[j..], t);
    assert p == p[..j] + p[j..];
    if t == x.text {
      NoneBehind(p, x, j);
    } else {
      NotInWithText([x], t);
    }
  }

  /** No string behind the slot has the same text. */
  lemma NoneBehind(p: seq<Str>, x: Str, j: nat)
    requires Sorted(p) && Slot(p, x, j)
    ensures WithText(p[j..], x.text) == []
  {
    hide WithText, Leq, Less;
    if j < |p| {
      NotBelow(p[j..], x);
    } else {
      WithTextNone(x.text);
    }
  }

  lemma InsertStable(s: seq<Str>, p: seq<Str>, x: Str, j: nat)
    requires StableSorted(s, p) && Slot(p, x, j)
    ensures StableSorted(s + [x], InsertAt(p, x, j))
  {
    InsertSorted(p, x, j);
    forall t ensures WithText(InsertAt(p, x, j), t) == WithText(s + [x], t) {
      WithTextConcat(s, [x], t);
      InsertTexts(p, x, j, t);
    }
  }

  ghost predicate SharePrefix(s: seq<Str>, depth: nat) {
    forall i, j | 0 <= i < |s| && 0 <= j < |s| :: Agree(s[i], s[j], depth)
  }

  lemma HoldsInserted(a: array<Str>, lo: nat, p: seq<Str>, x: Str, j: nat)
    requires j <= |p| && lo + |p| < a.Length && a[lo + j] == x
    requires forall k | 0 <= k < j :: a[lo + k] == p[k]
    requires forall k | j <= k < |p| :: a[lo + k + 1] == p[k]
    ensures Holds(a, lo, InsertAt(p, x, j))
  {
    var q := InsertAt(p, x, j);
    forall k | 0 <= k < |q| ensures a[lo + k] == q[k] {
      if k > j {
        assert a[lo + (k - 1) + 1] == p[k - 1];
      }
    }
  }

  /** Shift the larger strings of the sorted prefix p up and put x below them. */
  method InsertOne(a: array<Str>, lo: nat, i: nat, depth: nat, ghost p: seq<Str>, ghost x: Str) returns (ghost q: seq<Str>)
    requires lo + i < a.Length && |p| == i && Holds(a, lo, p) && a[lo + i] == x
    requires forall k | 0 <= k < i :: Agree(p[k], x, depth)
    modifies a
    ensures exists j :: Slot(p, x, j) && q == InsertAt(p, x, j)
    ensures Holds(a, lo, q)
    ensures forall k | 0 <= k < a.Length && !(lo <= k <= lo + i) :: a[k] == old(a[k])
  {
    hide Leq, Less, InsertAt;
    var tmp := a[lo + i];
    var j := i;
    while j > 0
      invariant 0 <= j <= i
      invariant forall k | 0 <= k < j :: a[lo + k] == p[k]
      invariant forall k | j <= k < i :: a[lo + k + 1] == p[k]
      invariant j < i ==> Less(x, p[j])
      invariant forall k | 0 <= k < a.Length && !(lo <= k <= lo + i) :: a[k] == old(a[k])
    {
      assert a[lo + (j - 1)] == p[j - 1];
      var cmp, _ := Compare(a[lo + j - 1], tmp, depth);
      LeqTotal(p[j - 1], x);
      LeqTotal(x, p[j - 1]);
      if cmp <= 0 { break; }
      a[lo + j] := a[lo + j - 1];
      j := j - 1;
    }
    a[lo + j] := tmp;
    q := InsertAt(p, x, j);
    assert Slot(p, x, j);
    HoldsInserted(a, lo, p, x, j);
  }

  /** insertion_sort(): the strings share their first depth characters. */
  method InsertionSort(a: array<Str>, lo: nat, n: nat, depth: nat, ghost s: seq<Str>) returns (ghost out: seq<Str>)
    requires lo + n <= a.Length && |s| == n && Holds(a, lo, s) && SharePrefix(s, depth)
    modifies a
    ensures StableSorted(s, out) && Holds(a, lo, out)
    ensures forall k | 0 <= k < a.Length && !(lo <= k < lo + n) :: a[k] == old(a[k])
  {
    hide StableSorted, InsertAt, Leq, Less, SharePrefix;
    var i := 0;
    out := [];
    StableNone(s);
    while i < n
      invariant 0 <= i <= n && |out| == i && StableSorted(s[..i], out) && Holds(a, lo, out)
      invariant forall k | i <= k < n :: a[lo + k] == s[k]
      invariant forall k | 0 <= k < a.Length && !(lo <= k < lo + n) :: a[k] == old(a[k])
    {
      ghost var p := out;
      StableAgree(s, i, p, depth);
      out := InsertOne(a, lo, i, depth, p, s[i]);
      ghost var j :| Slot(p, s[i], j) && out == InsertAt(p, s[i], j);
      InsertStable(s[..i], p, s[i], j);
      assert s[..i] + [s[i]] == s[..i + 1];
      i := i + 1;
    }
    assert s[..n] == s;
  }

  lemma StableNone(s: seq<Str>)
    ensures StableSorted(s[..0], [])
  {
    assert s[..0] == [];
  }

  lemma StableAgree(s: seq<Str>, i: nat, p: seq<Str>, depth: nat)
    requires i < |s| && SharePrefix(s, depth) && StableSorted(s[..i], p)
    ensures forall k | 0 <= k < i :: Agree(p[k], s[i], depth)
  {
    StableIsPermutation(s[..i], p);
    forall k | 0 <= k < i ensures Agree(p[k], s[i], depth) {
      assert p[k] in multiset(s[..i]);
    }
  }

  lemma StableLength(s: seq<Str>, out: seq<Str>)
    requires StableSorted(s, out)
    ensures |out| == |s| && Sorted(out)
  {
  }

  lemma ShareNothing(s: seq<Str>)
    ensures SharePrefix(s, 0)
  {
  }
}
