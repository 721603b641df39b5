/** Zero-terminated byte strings, their order and longest common prefixes, and
    the 8-byte zero-padded keys that the cached sorters compare as integers. */
module Strings {

  /** The characters before the terminating zero byte. */
  type Text = s: seq<int> | forall i :: 0 <= i < |s| ==> 0 < s[i] < 256

  /** An `unsigned char*`: its address tells equal texts apart. */
  datatype Str = Str(addr: int, text: Text)

  /** `a[i]`; reading past the terminator is not allowed. */
  function Char(a: Str, i: nat): (c: int)
    requires i <= |a.text|
    ensures 0 <= c < 256
  {
    if i < |a.text| then a.text[i] else 0
  }

  /** The first n characters exist in both texts and are the same. */
  ghost predicate Agree(a: Str, b: Str, n: nat) {
    && n <= |a.text|
    && n <= |b.text|
    && forall i | 0 <= i < n :: a.text[i] == b.text[i]
  }

  /** n is where a scan of both texts from the front stops. */
  ghost predicate IsLcp(a: Str, b: Str, n: nat) {
    Agree(a, b, n) && (Char(a, n) == 0 || Char(a, n) != Char(b, n))
  }

  function LcpFrom(a: Str, b: Str, i: nat): (n: nat)
    requires Agree(a, b, i)
    ensures IsLcp(a, b, n) && n >= i
    decreases |a.text| - i
  {
    if Char(a, i) == 0 || Char(a, i) != Char(b, i) then i else LcpFrom(a, b, i + 1)
  }

  function Lcp(a: Str, b: Str): (n: nat)
    ensures IsLcp(a, b, n)
  {
    LcpFrom(a, b, 0)
  }

  predicate Leq(a: Str, b: Str) {
    Char(a, Lcp(a, b)) <= Char(b, Lcp(a, b))
  }

  predicate Less(a: Str, b: Str) {
    Char(a, Lcp(a, b)) < Char(b, Lcp(a, b))
  }

  lemma LcpUnique(a: Str, b: Str, n: nat)
    requires IsLcp(a, b, n)
    ensures Lcp(a, b) == n
  {
    var m := Lcp(a, b);
    assert m < n ==> Char(a, m) == Char(b, m);
    assert n < m ==> Char(a, n) == Char(b, n);
  }

  lemma LcpSymmetric(a: Str, b: Str)
    ensures Lcp(a, b) == Lcp(b, a)
  {
    LcpUnique(b, a, Lcp(a, b));
  }

  lemma LeqReflexive(a: Str)
    ensures Leq(a, a) && Lcp(a, a) == |a.text|
  {
    LcpUnique(a, a, |a.text|);
  }

  lemma LeqTotal(a: Str, b: Str)
    ensures Leq(a, b) <==> !Less(b, a)
    ensures Less(a, b) ==> Leq(a, b)
    ensures Leq(a, b) && !Less(a, b) ==> a.text == b.text
  {
    LcpSymmetric(a, b);
  }

  /** Sorted neighbours: the LCP of the outer two is the smaller inner LCP. */
  lemma LcpMin(a: Str, b: Str, c: Str)
    requires Leq(a, b) && Leq(b, c)
    ensures Leq(a, c)
    ensures Lcp(a, c) == if Lcp(a, b) <= Lcp(b, c) then Lcp(a, b) else Lcp(b, c)
    ensures Less(a, b) || Less(b, c) ==> Less(a, c)
  {
    var x, y := Lcp(a, b), Lcp(b, c);
    var m := if x <= y then x else y;
    assert forall i | 0 <= i < m :: a.text[i] == b.text[i] == c.text[i];
    if x == y && Char(a, x) == 0 == Char(c, x) {
      LcpUnique(a, c, m);
    } else {
      LcpUnique(a, c, m);
    }
  }

  /** Two strings after a common predecessor: the one that agrees with it for
      longer comes first, and no character beyond needs to be looked at. */
  lemma LongerLcpFirst(p: Str, x: Str, y: Str)
    requires Leq(p, x) && Leq(p, y) && Lcp(p, x) > Lcp(p, y)
    ensures Less(x, y) && Lcp(x, y) == Lcp(p, y)
  {
    var l := Lcp(p, y);
    assert p.text[l] == x.text[l];
    LcpUnique(x, y, l);
  }

  lemma LessAt(a: Str, b: Str, n: nat)
    requires Agree(a, b, n) && Char(a, n) < Char(b, n)
    ensures Lcp(a, b) == n && Less(a, b)
  {
    LcpUnique(a, b, n);
  }

  ghost predicate Sorted(s: seq<Str>) {
    forall i, j | 0 <= i < j < |s| :: Leq(s[i], s[j])
  }

  // ---------------------------------------------------------------- keys

  /** Character i, or zero from the terminator on. */
  function Pad(a: Str, i: nat): (c: int)
    ensures 0 <= c < 256
  {
    if i < |a.text| then a.text[i] else 0
  }

  /** The next w characters from depth d as a big-endian, zero-padded number. */
  function Key(a: Str, d: nat, w: nat): (k: nat)
    decreases w
  {
    if w == 0 then 0 else 256 * Key(a, d, w - 1) + Pad(a, d + w - 1)
  }

  lemma KeyBound(a: Str, d: nat)
    ensures Key(a, d, 8) < 0x1_0000_0000_0000_0000
  {
    assert Key(a, d, 2) < 0x1_0000;
    assert Key(a, d, 4) < 0x1_0000_0000;
    assert Key(a, d, 6) < 0x1_0000_0000_0000;
  }

  /** Number of leading bytes in which two w-byte keys are equal: what the
      number of high zero bits of their exclusive-or, divided by 8, counts. */
  function KeyLcp(k: nat, l: nat, w: nat): (n: nat)
    ensures n <= w
    decreases w
  {
    if k == l || w == 0 then w else KeyLcp(k / 256, l / 256, w - 1)
  }

  /** w minus the number of low zero bytes. */
  function KeyDepth(k: nat, w: nat): (n: nat)
    ensures n <= w
    decreases w
  {
    if w == 0 || k % 256 != 0 then w else KeyDepth(k / 256, w - 1)
  }

  /** Key order is string order, and the keys alone give the exact LCP. */
  lemma {:induction false} KeyOrder(a: Str, b: Str, d: nat, w: nat)
    requires Agree(a, b, d)
    ensures Key(a, d, w) < Key(b, d, w) ==>
              Less(a, b) && Lcp(a, b) == d + KeyLcp(Key(a, d, w), Key(b, d, w), w)
              && KeyLcp(Key(a, d, w), Key(b, d, w), w) < w
    ensures Key(a, d, w) == Key(b, d, w) ==> Agree(a, b, d + w) || a.text == b.text
    ensures Agree(a, b, d + w) || a.text == b.text ==> Key(a, d, w) == Key(b, d, w)
    decreases w
  {
    if w > 0 {
      KeyOrder(a, b, d, w - 1);
      KeyOrderLast(a, b, d, w);
    }
  }

  lemma KeyOrderLast(a: Str, b: Str, d: nat, w: nat)
    requires w > 0 && Agree(a, b, d)
    requires var k, l := Key(a, d, w - 1), Key(b, d, w - 1);
             && (k < l ==> Less(a, b) && Lcp(a, b) == d + KeyLcp(k, l, w - 1) && KeyLcp(k, l, w - 1) < w - 1)
             && (k == l <==> Agree(a, b, d + w - 1) || a.text == b.text)
    ensures var k, l := Key(a, d, w), Key(b, d, w);
            && (k < l ==> Less(a, b) && Lcp(a, b) == d + KeyLcp(k, l, w) && KeyLcp(k, l, w) < w)
            && (k == l <==> Agree(a, b, d + w) || a.text == b.text)
  {
    hide Less, Lcp;
    var k, l := Key(a, d, w - 1), Key(b, d, w - 1);
    var x, y := Pad(a, d + w - 1), Pad(b, d + w - 1);
    assert Key(a, d, w) == 256 * k + x && Key(b, d, w) == 256 * l + y;
    assert Key(a, d, w) / 256 == k && Key(b, d, w) / 256 == l;
    if k == l && Agree(a, b, d + w - 1) && x < y {
      LessAt(a, b, d + w - 1);
    }
  }

  lemma {:induction false} KeyLcpSymmetric(k: nat, l: nat, w: nat)
    ensures KeyLcp(k, l, w) == KeyLcp(l, k, w)
    decreases w
  {
    if k != l && w > 0 {
      KeyLcpSymmetric(k / 256, l / 256, w - 1);
    }
  }

  /** A key with a zero low byte has swallowed the whole rest of the text. */
  lemma {:induction false} KeyDepthExact(a: Str, d: nat, w: nat)
    requires d <= |a.text| && w > 0 && Key(a, d, w) % 256 == 0
    ensures |a.text| == d + KeyDepth(Key(a, d, w), w)
    decreases w
  {
    assert Pad(a, d + w - 1) == 0;
    if w > 1 && Key(a, d, w - 1) % 256 == 0 {
      KeyDepthExact(a, d, w - 1);
    }
  }

  lemma {:induction false} EmptyKey(a: Str, w: nat)
    requires a.text == []
    ensures Key(a, 0, w) == 0
  {
    if w > 0 { EmptyKey(a, w - 1); }
  }

  lemma LastByte(x: Str, d: nat, w: nat)
    requires w > 0
    ensures Key(x, d, w) % 256 == Pad(x, d + w - 1)
  {
  }
}
