/** Which inputs let the parallel steps of src/parallel/bingmann-parallel_mkqs.hpp read
    characters behind a terminator: exactly those on which some choice of pivots leads
    to a parallel step whose pivot has a zero low byte. */
module PivotChoices {
  import CachedInsertion
  import P = ParallelPartition
  import opened Partition
  import opened StableSort
  import opened Strings

  /** The strings and the depth of a ParallelJob. */
  datatype Node = Node(strs: multiset<Str>, depth: nat)

  /** b holds the strings of a whose keys are on side t of the pivot. */
  ghost predicate KeySide(b: multiset<Str>, a: multiset<Str>, t: P.Type, pivot: nat, depth: nat) {
    forall y :: b[y] == if P.Right(t, K(y, depth), pivot) then a[y] else 0
  }

  /** With the key of x as its pivot, the step of node a leaves side t to node b. The
      strings equal to the pivot are sorted deeper. */
  ghost predicate ChildBy(a: Node, b: Node, x: Str, t: P.Type) {
    && x in a.strs && KeySide(b.strs, a.strs, t, K(x, a.depth), a.depth)
    && if t == P.EQ then K(x, a.depth) % 256 != 0 && b.depth == a.depth + 8 else b.depth == a.depth
  }

  ghost predicate Child(a: Node, b: Node) {
    exists x: Str, t: P.Type :: ChildBy(a, b, x, t)
  }

  /** A string whose key has a zero low byte may be chosen as the pivot. */
  ghost predicate Ends(a: Node) {
    exists x :: x in a.strs && K(x, a.depth) % 256 == 0
  }

  /** Parallel jobs for the sides of a step are only made for more than threshold strings. */
  ghost predicate Next(a: Node, b: Node, threshold: nat) {
    Child(a, b) && |b.strs| > threshold
  }

  /** Choices of pivots from a on, to a node that may choose a pivot with a zero low
      byte. */
  ghost predicate Choices(p: seq<Node>, a: Node, threshold: nat) {
    && p != [] && p[0] == a && Ends(p[|p| - 1])
    && forall i: nat | i + 1 < |p| :: Next(p[i], p[i + 1], threshold)
  }

  /** Some choice of pivots reads behind a terminator. */
  ghost predicate Reads(a: Node, threshold: nat) {
    exists p: seq<Node> :: Choices(p, a, threshold)
  }

  lemma ReadsHere(a: Node, x: Str, threshold: nat)
    requires x in a.strs && K(x, a.depth) % 256 == 0
    ensures Reads(a, threshold)
  {
    hide K;
    assert Ends(a);
    assert Choices([a], a, threshold);
  }

  lemma ReadsBelow(a: Node, b: Node, threshold: nat)
    requires Child(a, b) && |b.strs| > threshold && Reads(b, threshold)
    ensures Reads(a, threshold)
  {
    hide Child, Ends;
    var p: seq<Node> :| Choices(p, b, threshold);
    var q := [a] + p;
    forall i: nat | i + 1 < |q| ensures Next(q[i], q[i + 1], threshold) {
      if i > 0 {
        assert Next(p[i - 1], p[(i - 1) + 1], threshold);
      }
    }
    assert Choices(q, a, threshold);
  }

  // ------------------------------------------------- the condition on strings

  /** x ends within the eight characters from depth + 8k on, and the strings t agree
      with it up to there: more than threshold of them, unless k is 0. */
  ghost predicate Crowd(t: multiset<Str>, k: nat, x: Str, s: multiset<Str>, depth: nat, threshold: nat) {
    && t <= s && x in t && |x.text| < depth + 8 * k + 8
    && (forall y | y in t :: Agree(x, y, depth + 8 * k)) && (k > 0 ==> |t| > threshold)
  }

  ghost predicate Crowded(s: multiset<Str>, depth: nat, threshold: nat) {
    exists t: multiset<Str>, k: nat, x: Str :: Crowd(t, k, x, s, depth, threshold)
  }

  /** All strings share their first depth characters. */
  ghost predicate Shares(s: multiset<Str>, depth: nat) {
    forall x, y | x in s && y in s :: Agree(x, y, depth)
  }

  lemma SharesOf(s: seq<Str>, depth: nat)
    requires SharePrefix(s, depth)
    ensures Shares(multiset(s), depth)
  {
    hide Agree;
    forall x, y | x in multiset(s) && y in multiset(s) ensures Agree(x, y, depth) {
      var p :| 0 <= p < |s| && s[p] == x;
      var q :| 0 <= q < |s| && s[q] == y;
      assert Agree(s[p], s[q], depth);
    }
  }

  // ------------------------------------------------------- choices need a crowd

  /** Every side of a step shares what its node promises. */
  lemma ChildShares(a: Node, b: Node)
    requires Child(a, b) && Shares(a.strs, a.depth)
    ensures b.strs <= a.strs && Shares(b.strs, b.depth) && (b.depth == a.depth || b.depth == a.depth + 8)
  {
    hide K, Agree;
    var x: Str, t: P.Type :| ChildBy(a, b, x, t);
    forall y ensures b.strs[y] <= a.strs[y] && (y in b.strs ==> y in a.strs && P.Right(t, K(y, a.depth), K(x, a.depth))) {
      assert b.strs[y] == if P.Right(t, K(y, a.depth), K(x, a.depth)) then a.strs[y] else 0;
    }
    if t == P.EQ {
      forall y, z | y in b.strs && z in b.strs ensures Agree(y, z, b.depth) {
        assert Agree(y, z, a.depth);
        EqualKeysShare(y, z, a.depth);
      }
    }
  }

  lemma EqualKeysShare(y: Str, z: Str, depth: nat)
    requires Agree(y, z, depth) && K(y, depth) == K(z, depth) && K(y, depth) % 256 != 0
    ensures Agree(y, z, depth + 8)
  {
    hide Key;
    KeyOrder(y, z, depth, 8);
    LastByte(y, depth, 8);
  }

  /** Where node i of the choices stands. */
  lemma {:induction false} NodeOnPath(p: seq<Node>, a: Node, threshold: nat, i: nat) returns (k: nat)
    requires Choices(p, a, threshold) && i < |p| && Shares(a.strs, a.depth)
    ensures p[i].strs <= a.strs && Shares(p[i].strs, p[i].depth) && p[i].depth == a.depth + 8 * k
    ensures k > 0 ==> |p[i].strs| > threshold
  {
    hide Child, Ends, Shares;
    k := 0;
    if i > 0 {
      k := NodeOnPath(p, a, threshold, i - 1);
      assert Next(p[i - 1], p[(i - 1) + 1], threshold);
      ChildShares(p[i - 1], p[i]);
      if p[i].depth != p[i - 1].depth { k := k + 1; }
    }
  }

  lemma ReadsCrowd(a: Node, threshold: nat)
    requires Shares(a.strs, a.depth) && Reads(a, threshold)
    ensures Crowded(a.strs, a.depth, threshold)
  {
    hide K, Agree, Child;
    var p: seq<Node> :| Choices(p, a, threshold);
    var b := p[|p| - 1];
    var k := NodeOnPath(p, a, threshold, |p| - 1);
    var x :| x in b.strs && K(x, b.depth) % 256 == 0;
    AgreeSelf(x, b.depth);
    LowByteEnds(x, b.depth);
    assert Crowd(b.strs, k, x, a.strs, a.depth, threshold);
  }

  // ----------------------------------------------------- a crowd has its choices

  /** The strings of m on side t of the pivot. */
  lemma {:induction false} KeySideOf(m: multiset<Str>, t: P.Type, pivot: nat, depth: nat) returns (b: multiset<Str>)
    ensures KeySide(b, m, t, pivot, depth)
    decreases |m|
  {
    hide K;
    if m == multiset{} {
      b := multiset{};
    } else {
      var x :| x in m;
      var r := m - multiset{x};
      b := KeySideOf(r, t, pivot, depth);
      if P.Right(t, K(x, depth), pivot) {
        b := b + multiset{x};
      }
    }
  }

  lemma {:induction false} CrowdReads(s: multiset<Str>, depth: nat, t: multiset<Str>, k: nat, x: Str, threshold: nat)
    requires Shares(s, depth) && Crowd(t, k, x, s, depth, threshold)
    ensures Reads(Node(s, depth), threshold)
    decreases k
  {
    hide K, Agree;
    assert Agree(x, x, depth + 8 * k);
    AgreeSelf(x, depth + 8 * k);
    LowByteEnds(x, depth);
    var a, pivot := Node(s, depth), K(x, depth);
    if k == 0 {
      ReadsHere(a, x, threshold);
    } else {
      var e := KeySideOf(s, P.EQ, pivot, depth);
      var b := Node(e, depth + 8);
      assert ChildBy(a, b, x, P.EQ);
      ChildShares(a, b);
      forall y ensures t[y] <= e[y] {
        if y in t { AgreeingKey(x, y, depth, k); }
        assert e[y] == if P.Right(P.EQ, K(y, depth), pivot) then s[y] else 0;
      }
      CardMono(t, e);
      assert Crowd(t, k - 1, x, e, depth + 8, threshold);
      CrowdReads(e, depth + 8, t, k - 1, x, threshold);
      ReadsBelow(a, b, threshold);
    }
  }

  lemma AgreeingKey(x: Str, y: Str, depth: nat, k: nat)
    requires Agree(x, y, depth + 8 * k) && k > 0
    ensures K(y, depth) == K(x, depth)
  {
    hide Key;
    AgreeLess(x, y, depth + 8 * k, depth);
    AgreeLess(x, y, depth + 8 * k, depth + 8);
    KeyOrder(x, y, depth, 8);
  }

  lemma AgreeLess(x: Str, y: Str, n: nat, m: nat)
    requires Agree(x, y, n) && m <= n
    ensures Agree(x, y, m)
  {
  }

  lemma CardMono(t: multiset<Str>, e: multiset<Str>)
    requires t <= e
    ensures |t| <= |e|
  {
    assert e == t + (e - t);
  }

  /** The exact condition: some choice of pivots reads behind a terminator if and only
      if some string ends within the first eight characters, or within eight characters
      after a multiple of eight that it shares with enough other strings. */
  lemma ReadsExactly(s: multiset<Str>, depth: nat, threshold: nat)
    requires Shares(s, depth)
    ensures Reads(Node(s, depth), threshold) <==> Crowded(s, depth, threshold)
  {
    hide Reads, Crowd, Shares;
    if Reads(Node(s, depth), threshold) {
      ReadsCrowd(Node(s, depth), threshold);
    }
    if Crowded(s, depth, threshold) {
      var t: multiset<Str>, k: nat, x: Str :| Crowd(t, k, x, s, depth, threshold);
      CrowdReads(s, depth, t, k, x, threshold);
    }
  }

  /** Two strings of at least eight characters that differ within the first eight do not
      crowd, however many characters they share and wherever they end. */
  lemma TwoApart(a: Str, b: Str, threshold: nat)
    requires |a.text| >= 8 && |b.text| >= 8 && !Agree(a, b, 8) && threshold > 0
    ensures !Crowded(multiset{a, b}, 0, threshold) && !Reads(Node(multiset{a, b}, 0), threshold)
  {
    hide Agree, Reads;
    var s := multiset{a, b};
    if Crowded(s, 0, threshold) {
      var t: multiset<Str>, k: nat, x: Str :| Crowd(t, k, x, s, 0, threshold);
      assert x in s && k > 0;
      BothIn(a, b, t);
      assert Agree(x, a, 8 * k) && Agree(x, b, 8 * k);
      AgreeBoth(x, a, b, 8 * k);
      AgreeLess(a, b, 8 * k, 8);
      assert false;
    }
    Sharing(s);
    ReadsExactly(s, 0, threshold);
  }

  lemma Sharing(s: multiset<Str>)
    ensures Shares(s, 0)
  {
  }

  lemma BothIn(a: Str, b: Str, t: multiset<Str>)
    requires t <= multiset{a, b} && |t| > 1
    ensures a in t && b in t
  {
    assert multiset{a, b} == t + (multiset{a, b} - t);
    assert |multiset{a, b} - t| == 0;
  }

  lemma AgreeBoth(x: Str, a: Str, b: Str, n: nat)
    requires Agree(x, a, n) && Agree(x, b, n)
    ensures Agree(a, b, n)
  {
  }

  // -------------------------------------------------- the pivots of one run

  /** The pivots of a run: the string whose key is the pivot of the step on these
      strings at this depth. No two steps of a run are on the same strings at the same
      depth (ChildSmaller). */
  type Pivots = (multiset<Str>, nat) -> Str

  ghost predicate Picks(pick: Pivots) {
    forall m: multiset<Str>, d: nat | m != multiset{} :: pick(m, d) in m
  }

  /** The step of a takes a pivot with a zero low byte. */
  ghost predicate EndsBy(a: Node, pick: Pivots) {
    a.strs != multiset{} && K(pick(a.strs, a.depth), a.depth) % 256 == 0
  }

  ghost predicate NextBy(a: Node, b: Node, threshold: nat, pick: Pivots) {
    |b.strs| > threshold && exists t: P.Type :: ChildBy(a, b, pick(a.strs, a.depth), t)
  }

  ghost predicate Path(p: seq<Node>, a: Node, threshold: nat, pick: Pivots) {
    && p != [] && p[0] == a && EndsBy(p[|p| - 1], pick)
    && forall i: nat | i + 1 < |p| :: NextBy(p[i], p[i + 1], threshold, pick)
  }

  /** With these pivots some parallel step from a on has a pivot with a zero low byte. */
  ghost predicate ReadsBy(pick: Pivots, a: Node, threshold: nat) {
    exists p: seq<Node> :: Path(p, a, threshold, pick)
  }

  lemma PathHere(a: Node, threshold: nat, pick: Pivots)
    requires EndsBy(a, pick)
    ensures ReadsBy(pick, a, threshold)
  {
    hide K;
    assert Path([a], a, threshold, pick);
  }

  lemma PathBelow(a: Node, b: Node, threshold: nat, pick: Pivots)
    requires NextBy(a, b, threshold, pick) && ReadsBy(pick, b, threshold)
    ensures ReadsBy(pick, a, threshold)
  {
    hide NextBy, EndsBy;
    var p: seq<Node> :| Path(p, b, threshold, pick);
    var q := [a] + p;
    forall i: nat | i + 1 < |q| ensures NextBy(q[i], q[i + 1], threshold, pick) {
      if i > 0 { assert NextBy(p[i - 1], p[(i - 1) + 1], threshold, pick); }
    }
    assert Path(q, a, threshold, pick);
  }

  /** Either here or below. */
  lemma PathFrom(a: Node, threshold: nat, pick: Pivots) returns (b: Node)
    requires ReadsBy(pick, a, threshold)
    ensures EndsBy(a, pick) || (NextBy(a, b, threshold, pick) && ReadsBy(pick, b, threshold))
  {
    hide NextBy, EndsBy;
    var p: seq<Node> :| Path(p, a, threshold, pick);
    b := a;
    if |p| > 1 {
      b := p[1];
      assert NextBy(p[0], p[0 + 1], threshold, pick);
      var q := p[1..];
      forall i: nat | i + 1 < |q| ensures NextBy(q[i], q[i + 1], threshold, pick) {
        assert NextBy(p[i + 1], p[(i + 1) + 1], threshold, pick);
      }
      assert Path(q, b, threshold, pick);
    }
  }

  /** The side of a pivot is determined. */
  lemma OneSide(b: multiset<Str>, c: multiset<Str>, a: multiset<Str>, t: P.Type, pivot: nat, depth: nat)
    requires KeySide(b, a, t, pivot, depth) && KeySide(c, a, t, pivot, depth)
    ensures b == c
  {
    hide K;
    forall y ensures b[y] == c[y] {
      assert b[y] == if P.Right(t, K(y, depth), pivot) then a[y] else 0;
    }
  }

  // ---------------------------------------- every choice is that of some run

  /** A node below a is deeper or has fewer strings. */
  ghost predicate Smaller(b: Node, a: Node) {
    b.depth > a.depth || (b.depth == a.depth && |b.strs| < |a.strs|)
  }

  lemma ChildSmaller(a: Node, b: Node, x: Str, t: P.Type)
    requires ChildBy(a, b, x, t)
    ensures Smaller(b, a)
  {
    hide K;
    if t != P.EQ {
      forall y ensures b.strs[y] <= a.strs[y] {
        assert b.strs[y] == if P.Right(t, K(y, a.depth), K(x, a.depth)) then a.strs[y] else 0;
      }
      assert b.strs[x] == 0;
      assert b.strs <= a.strs - multiset{x};
      CardMono(b.strs, a.strs - multiset{x});
    }
  }

  /** Below a node that is smaller than a, the pivot of a does not matter. */
  lemma {:induction false} OtherPivot(p: seq<Node>, b: Node, threshold: nat, pick: Pivots, pick': Pivots, a: Node)
    requires Path(p, b, threshold, pick) && Smaller(b, a)
    requires forall m: multiset<Str>, d: nat | Node(m, d) != a :: pick'(m, d) == pick(m, d)
    ensures Path(p, b, threshold, pick')
    decreases |p|
  {
    hide K, KeySide;
    assert Node(b.strs, b.depth) != a;
    if |p| > 1 {
      assert NextBy(p[0], p[0 + 1], threshold, pick);
      var t: P.Type :| ChildBy(b, p[1], pick(b.strs, b.depth), t);
      ChildSmaller(b, p[1], pick(b.strs, b.depth), t);
      assert ChildBy(b, p[1], pick'(b.strs, b.depth), t);
      var q := p[1..];
      forall i: nat | i + 1 < |q| ensures NextBy(q[i], q[i + 1], threshold, pick) {
        assert NextBy(p[i + 1], p[(i + 1) + 1], threshold, pick);
      }
      OtherPivot(q, p[1], threshold, pick, pick', a);
      forall i: nat | i + 1 < |p| ensures NextBy(p[i], p[i + 1], threshold, pick') {
        if i > 0 { assert NextBy(q[i - 1], q[(i - 1) + 1], threshold, pick'); }
      }
    }
  }

  ghost function SomePivot(m: multiset<Str>): (x: Str)
    ensures m != multiset{} ==> x in m
  {
    if m == multiset{} then Str(0, []) else var x :| x in m; x
  }

  lemma {:induction false} ChoicesPath(p: seq<Node>, a: Node, threshold: nat) returns (pick: Pivots)
    requires Choices(p, a, threshold)
    ensures Picks(pick) && Path(p, a, threshold, pick)
    decreases |p|
  {
    hide K, KeySide;
    if |p| == 1 {
      var x :| x in a.strs && K(x, a.depth) % 256 == 0;
      pick := (m: multiset<Str>, d: nat) => if Node(m, d) == a then x else SomePivot(m);
    } else {
      var b, q := p[1], p[1..];
      assert Next(p[0], p[0 + 1], threshold);
      forall i: nat | i + 1 < |q| ensures Next(q[i], q[i + 1], threshold) {
        assert Next(p[i + 1], p[(i + 1) + 1], threshold);
      }
      var pick1 := ChoicesPath(q, b, threshold);
      var x: Str, t: P.Type :| ChildBy(a, b, x, t);
      pick := (m: multiset<Str>, d: nat) => if Node(m, d) == a then x else pick1(m, d);
      ChildSmaller(a, b, x, t);
      OtherPivot(q, b, threshold, pick1, pick, a);
      assert ChildBy(a, b, pick(a.strs, a.depth), t);
      forall i: nat | i + 1 < |p| ensures NextBy(p[i], p[i + 1], threshold, pick) {
        if i > 0 { assert NextBy(q[i - 1], q[(i - 1) + 1], threshold, pick); }
      }
    }
  }

  /** What some choice of pivots does, some run does, and the other way round. */
  lemma ReadsBySome(a: Node, threshold: nat)
    ensures Reads(a, threshold) <==> exists pick: Pivots :: Picks(pick) && ReadsBy(pick, a, threshold)
  {
    hide Choices, Path, Picks;
    if Reads(a, threshold) {
      var p: seq<Node> :| Choices(p, a, threshold);
      var pick := ChoicesPath(p, a, threshold);
      assert ReadsBy(pick, a, threshold);
    }
    if pick: Pivots :| Picks(pick) && ReadsBy(pick, a, threshold) {
      RunReads(a, threshold, pick);
    }
  }

  lemma RunReads(a: Node, threshold: nat, pick: Pivots)
    requires Picks(pick) && ReadsBy(pick, a, threshold)
    ensures Reads(a, threshold)
  {
    hide K, KeySide;
    var p: seq<Node> :| Path(p, a, threshold, pick);
    forall i: nat | i + 1 < |p| ensures Next(p[i], p[i + 1], threshold) {
      assert NextBy(p[i], p[i + 1], threshold, pick);
    }
    var b := p[|p| - 1];
    assert pick(b.strs, b.depth) in b.strs;
    assert Choices(p, a, threshold);
  }
}
