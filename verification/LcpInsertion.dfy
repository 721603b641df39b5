/** LCP insertion sort (src/sequential/bingmann-lcp_inssort.hpp): the LCP array
    of the sorted prefix tells which strings need not be looked at. */
module LcpInsertion {
  import opened Cells
  import opened Strings
  import opened StableSort

  /** LCP of entry k with its predecessor; one past the end stands depth. */
  ghost function Link(p: seq<Str>, k: nat, depth: nat): (l: nat)
    requires 0 < k <= |p|
  {
    if k < |p| then Lcp(p[k - 1], p[k]) else depth
  }

  /** The LCP entries of p[1..], and the entry after p if it is among the n. */
  ghost predicate Links(lcp: array<nat>, lo: nat, n: nat, p: seq<Str>, depth: nat)
    reads lcp
  {
    lo + n <= lcp.Length && |p| <= n && forall k | 0 < k <= |p| && k < n :: lcp[lo + k] == Link(p, k, depth)
  }

  /** Entry 0 of the area belongs to its left neighbour. */
  twostate predicate EntriesKept(lcp: array<nat>, lo: nat, n: nat)
    reads lcp
  {
    forall q | 0 <= q < lcp.Length && !(lo < q < lo + n) :: lcp[q] == old(lcp[q])
  }

  /** The hole is at i, the strings from p[i] on and their links have moved up,
      and h is the LCP of x with p[i]. */
  ghost predicate HoleLinks(lcp: array<nat>, lo: nat, n: nat, p: seq<Str>, depth: nat, i: nat)
    reads lcp
  {
    && i <= |p| < n && lo + n <= lcp.Length
    && (forall k | 0 < k <= i :: lcp[lo + k] == Link(p, k, depth))
    && (forall k | i < k <= |p| && k + 1 < n :: lcp[lo + k + 1] == Link(p, k, depth))
  }

  /** LCP of x with the string above the hole. */
  ghost predicate Above(p: seq<Str>, x: Str, i: nat, h: nat, depth: nat) {
    i <= |p| && if i < |p| then Less(x, p[i]) && h == Lcp(x, p[i]) else h == depth
  }

  ghost predicate AllAgree(p: seq<Str>, x: Str, depth: nat) {
    forall k | 0 <= k < |p| :: Agree(p[k], x, depth)
  }

  /** What the LCP of the string below the hole with the one above tells. */
  lemma HoleStep(p: seq<Str>, x: Str, i: nat, h: nat, depth: nat)
    requires Sorted(p) && 0 < i && Above(p, x, i, h, depth) && AllAgree(p, x, depth)
    ensures Link(p, i, depth) < h ==> Less(p[i - 1], x) && Lcp(p[i - 1], x) == Link(p, i, depth)
    ensures Link(p, i, depth) > h ==> Less(x, p[i - 1]) && Lcp(x, p[i - 1]) == h
    ensures Link(p, i, depth) == h ==> Agree(x, p[i - 1], h)
  {
    var cur, l := p[i - 1], Link(p, i, depth);
    if i < |p| {
      var q := p[i];
      if l < h {
        LessAt(cur, x, l);
      } else if l > h {
        LessAt(x, cur, h);
      }
    }
  }

  /** x goes to the hole at i and its LCPs with both neighbours are written. */
  ghost predicate Placed(lcp: array<nat>, lo: nat, n: nat, p: seq<Str>, x: Str, depth: nat, i: nat)
    reads lcp
  {
    && i <= |p| < n && lo + n <= lcp.Length
    && (forall k | 0 < k < i :: lcp[lo + k] == Link(p, k, depth))
    && (forall k | i < k <= |p| && k + 1 < n :: lcp[lo + k + 1] == Link(p, k, depth))
    && (i > 0 ==> lcp[lo + i] == Lcp(p[i - 1], x))
    && (i + 1 < n ==> lcp[lo + i + 1] == if i < |p| then Lcp(x, p[i]) else depth)
  }

  lemma PlacedLinks(lcp: array<nat>, lo: nat, n: nat, p: seq<Str>, x: Str, depth: nat, i: nat)
    requires Placed(lcp, lo, n, p, x, depth, i)
    ensures Links(lcp, lo, n, InsertAt(p, x, i), depth)
  {
    hide Lcp, InsertAt;
    var q := InsertAt(p, x, i);
    forall k | 0 < k <= |q| && k < n ensures lcp[lo + k] == Link(q, k, depth) {
      InsertAtIndex(p, x, i, k - 1);
      if k < |q| { InsertAtIndex(p, x, i, k); }
      assert k < i ==> Link(q, k, depth) == Link(p, k, depth);
      assert k > i + 1 ==> Link(q, k, depth) == Link(p, k - 1, depth);
      if k > i + 1 {
        assert lcp[lo + (k - 1) + 1] == Link(p, k - 1, depth);
      }
    }
  }

  /** Compare from h on, as in case 2. */
  method Extend(x: Str, cur: Str, h: nat) returns (less: bool, l: nat)
    requires Agree(x, cur, h)
    ensures l == Lcp(x, cur) && less == Less(x, cur)
  {
    l := h;
    while Char(x, l) == Char(cur, l) && Char(x, l) != 0
      invariant Agree(x, cur, l)
      decreases |x.text| - l
    {
      l := l + 1;
    }
    LcpUnique(x, cur, l);
    less := Char(x, l) < Char(cur, l);
  }

  /** Move the hole down by one string. */
  method Shift(a: array<Str>, lcp: array<nat>, lo: nat, n: nat, i: nat, ghost p: seq<Str>, ghost depth: nat)
    requires 0 < i <= |p| && lo + n <= a.Length && HoleLinks(lcp, lo, n, p, depth, i)
    requires forall k | 0 <= k < i :: a[lo + k] == p[k]
    requires forall k | i <= k < |p| :: a[lo + k + 1] == p[k]
    modifies a, lcp
    ensures HoleLinks(lcp, lo, n, p, depth, i - 1)
    ensures forall k | 0 <= k < i - 1 :: a[lo + k] == p[k]
    ensures forall k | i - 1 <= k < |p| :: a[lo + k + 1] == p[k]
    ensures SameOutside(a, lo, |p| + 1) && EntriesKept(lcp, lo, n)
  {
    hide Lcp, Link;
    a[lo + i] := a[lo + i - 1];
    if i + 1 < n {
      lcp[lo + i + 1] := lcp[lo + i];
    }
  }

  /** One look below the hole: insert here, or move on. */
  method Probe(a: array<Str>, lcp: array<nat>, lo: nat, n: nat, depth: nat, ghost p: seq<Str>, x: Str, i: nat, h: nat)
    returns (insert: bool, h': nat)
    requires 0 < i && Sorted(p) && AllAgree(p, x, depth) && Above(p, x, i, h, depth)
    requires lo + n <= a.Length && HoleLinks(lcp, lo, n, p, depth, i) && a[lo + i - 1] == p[i - 1]
    modifies lcp
    ensures insert ==> h' == h && Leq(p[i - 1], x)
    ensures insert ==> lcp[lo + i] == Lcp(p[i - 1], x) && forall k | 0 <= k < lcp.Length && k != lo + i :: lcp[k] == old(lcp[k])
    ensures !insert ==> Above(p, x, i - 1, h', depth) && unchanged(lcp)
  {
    hide Lcp, Less, Leq, Sorted, AllAgree, Agree;
    HoleStep(p, x, i, h, depth);
    var cur, curLcp := a[lo + i - 1], lcp[lo + i];
    LeqTotal(cur, x);
    LeqTotal(x, cur);
    LcpSymmetric(x, cur);
    if curLcp < h {
      return true, h;
    } else if curLcp == h {
      var less, l := Extend(x, cur, h);
      if !less {
        lcp[lo + i] := l;
        return true, h;
      }
      return false, l;
    }
    return false, h;
  }

  /** The inner loop: find the place of x, moving larger strings up. */
  method FindPlace(a: array<Str>, lcp: array<nat>, lo: nat, n: nat, j: nat, depth: nat, ghost p: seq<Str>, x: Str)
    returns (i: nat, h: nat)
    requires |p| == j < n && lo + n <= a.Length && Holds(a, lo, p) && Sorted(p) && AllAgree(p, x, depth)
    requires Links(lcp, lo, n, p, depth)
    modifies a, lcp
    ensures Slot(p, x, i) && Above(p, x, i, h, depth)
    ensures forall k | 0 <= k < i :: a[lo + k] == p[k]
    ensures forall k | i <= k < j :: a[lo + k + 1] == p[k]
    ensures forall k | 0 < k < i :: lcp[lo + k] == Link(p, k, depth)
    ensures forall k | i < k <= j && k + 1 < n :: lcp[lo + k + 1] == Link(p, k, depth)
    ensures i > 0 ==> lcp[lo + i] == Lcp(p[i - 1], x)
    ensures SameOutside(a, lo, j + 1) && EntriesKept(lcp, lo, n)
  {
    hide Lcp, Less, Leq, Sorted, AllAgree, Link;
    i, h := j, depth;
    while i > 0
      invariant 0 <= i <= j && Above(p, x, i, h, depth)
      invariant HoleLinks(lcp, lo, n, p, depth, i)
      invariant forall k | 0 <= k < i :: a[lo + k] == p[k]
      invariant forall k | i <= k < j :: a[lo + k + 1] == p[k]
      invariant SameOutside(a, lo, j + 1) && EntriesKept(lcp, lo, n)
    {
      var insert;
      insert, h := Probe(a, lcp, lo, n, depth, p, x, i, h);
      if insert { return; }
      Shift(a, lcp, lo, n, i, p, depth);
      i := i - 1;
    }
  }

  /** Insert the string after the sorted prefix p. */
  method InsertWithLcp(a: array<Str>, lcp: array<nat>, lo: nat, n: nat, j: nat, depth: nat, ghost p: seq<Str>, ghost x: Str)
    returns (ghost q: seq<Str>)
    requires |p| == j < n && lo + n <= a.Length && Holds(a, lo, p) && a[lo + j] == x && Sorted(p) && AllAgree(p, x, depth)
    requires Links(lcp, lo, n, p, depth)
    modifies a, lcp
    ensures exists i :: Slot(p, x, i) && q == InsertAt(p, x, i)
    ensures Holds(a, lo, q) && Links(lcp, lo, n, q, depth)
    ensures SameOutside(a, lo, j + 1) && EntriesKept(lcp, lo, n)
  {
    hide Lcp, Less, Leq, Sorted, AllAgree, Link, InsertAt;
    var str := a[lo + j];
    var i, h := FindPlace(a, lcp, lo, n, j, depth, p, str);
    a[lo + i] := str;
    if i + 1 < n {
      lcp[lo + i + 1] := h;
    }
    PlacedLinks(lcp, lo, n, p, x, depth, i);
    HoldsInserted(a, lo, p, x, i);
    q := InsertAt(p, x, i);
  }

  /** lcp_insertion_sort(). Entry 0 of the LCP array is not touched. */
  method LcpInsertionSort(a: array<Str>, lcp: array<nat>, lo: nat, n: nat, depth: nat, ghost s: seq<Str>)
    returns (ghost out: seq<Str>)
    requires |s| == n && lo + n <= lcp.Length && Holds(a, lo, s) && SharePrefix(s, depth)
    modifies a, lcp
    ensures StableSorted(s, out) && Holds(a, lo, out)
    ensures forall k | 0 < k < n :: lcp[lo + k] == Lcp(out[k - 1], out[k])
    ensures SameOutside(a, lo, n) && EntriesKept(lcp, lo, n)
  {
    hide StableSorted, InsertAt, Leq, Less, Lcp, SharePrefix;
    if n <= 1 {
      StableTiny(s);
      return s;
    }
    StableNone(s);
    out := [];
    var j := 0;
    while j < n
      invariant 0 <= j <= n && |out| == j && StableSorted(s[..j], out)
      invariant Holds(a, lo, out) && Links(lcp, lo, n, out, depth)
      invariant forall k | j <= k < n :: a[lo + k] == s[k]
      invariant SameOutside(a, lo, n) && EntriesKept(lcp, lo, n)
    {
      ghost var p := out;
      StableAgree(s, j, p, depth);
      StableIsSorted(s[..j], p);
      out := InsertWithLcp(a, lcp, lo, n, j, depth, p, s[j]);
      ghost var i :| Slot(p, s[j], i) && out == InsertAt(p, s[j], i);
      InsertStable(s[..j], p, s[j], i);
      assert s[..j] + [s[j]] == s[..j + 1];
      j := j + 1;
    }
    assert s[..n] == s;
    forall k | 0 < k < n ensures lcp[lo + k] == Lcp(out[k - 1], out[k]) {
      assert lcp[lo + k] == Link(out, k, depth);
    }
  }

  lemma StableIsSorted(s: seq<Str>, out: seq<Str>)
    requires StableSorted(s, out)
    ensures Sorted(out)
  {
  }

  lemma StableTiny(s: seq<Str>)
    requires |s| <= 1
    ensures StableSorted(s, s)
  {
  }
}
