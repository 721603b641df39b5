/** An array area that is being sorted in pieces: strings of different pieces are
    already in order, each open piece still has to be sorted by someone. */
module Pieces {
  import opened CleanCaches
  import opened Partition
  import opened StableSort
  import opened Strings

  /** An unsorted piece of n strings that share depth characters, or are all the
      same text; a dirty one has no valid cached keys. */
  datatype Piece = Piece(n: nat, depth: nat, dirty: bool, same: bool)

  /** Area [lo, hi). val is the current string of each position, wherever it is
      stored; head is the start of the piece a position belongs to; written tells
      which positions have reached the output array. */
  datatype Board = Board(lo: nat, hi: nat, val: seq<Str>, head: seq<nat>, open: map<nat, Piece>, keys: seq<nat>, written: seq<bool>)

  ghost predicate Shaped(b: Board) {
    b.lo <= b.hi <= |b.val| && |b.val| == |b.head| == |b.keys| == |b.written|
  }

  /** Strings of different pieces are in order. */
  ghost predicate Ordered(b: Board)
    requires Shaped(b)
  {
    forall p, q | b.lo <= p < q < b.hi && b.head[p] != b.head[q] :: Leq(b.val[p], b.val[q])
  }

  /** A position that is not its own piece belongs to an open one. */
  ghost predicate Headed(b: Board)
    requires Shaped(b)
  {
    forall p | b.lo <= p < b.hi :: b.lo <= b.head[p] <= p && (b.head[p] == p || b.head[p] in b.open)
  }

  ghost predicate Covers(b: Board, at: nat, n: nat)
    requires Shaped(b)
  {
    forall p | b.lo <= p < b.hi :: b.head[p] == at <==> at <= p < at + n
  }

  ghost predicate SameText(s: seq<Str>) {
    forall i, j | 0 <= i < |s| && 0 <= j < |s| :: s[i].text == s[j].text
  }

  /** The strings of a piece are what it says. */
  ghost predicate Fit(s: seq<Str>, keys: seq<nat>, at: nat, piece: Piece) {
    && |s| == piece.n > 0
    && (if piece.same then SameText(s) else SharePrefix(s, piece.depth) && (!piece.dirty ==> KeysIn(keys, at, s, piece.depth)))
  }

  ghost predicate PieceOk(b: Board, at: nat, piece: Piece)
    requires Shaped(b)
  {
    && b.lo <= at && at + piece.n <= b.hi && Covers(b, at, piece.n)
    && (forall p | at <= p < at + piece.n :: !b.written[p])
    && Fit(b.val[at..at + piece.n], b.keys, at, piece)
  }

  ghost predicate BoardOk(b: Board) {
    Shaped(b) && Ordered(b) && Headed(b) && forall at | at in b.open :: PieceOk(b, at, b.open[at])
  }

  /** Outside [at, at + n) nothing has changed. */
  ghost predicate SameBeyond(b: Board, b': Board, at: nat, n: nat)
    requires Shaped(b)
  {
    && Shaped(b') && |b'.val| == |b.val| && b'.lo == b.lo && b'.hi == b.hi
    && forall p | 0 <= p < |b.val| && !(at <= p < at + n) ::
         b'.val[p] == b.val[p] && b'.head[p] == b.head[p] && b'.keys[p] == b.keys[p] && b'.written[p] == b.written[p]
  }

  /** Inside, the strings were rearranged, in order between new pieces. */
  ghost predicate Rearranged(b: Board, b': Board, at: nat, n: nat)
    requires Shaped(b) && Shaped(b') && |b'.val| == |b.val| && at + n <= |b.val|
  {
    && multiset(b'.val[at..at + n]) == multiset(b.val[at..at + n])
    && (forall p | at <= p < at + n :: at <= b'.head[p] <= p)
    && (forall p, q | at <= p < q < at + n && b'.head[p] != b'.head[q] :: Leq(b'.val[p], b'.val[q]))
  }

  /** Two different open pieces do not overlap. */
  lemma Apart(b: Board, at: nat, at': nat)
    requires BoardOk(b) && at in b.open && at' in b.open && at != at'
    ensures at + b.open[at].n <= at' || at' + b.open[at'].n <= at
  {
    hide Fit, Ordered;
    var n, n' := b.open[at].n, b.open[at'].n;
    assert PieceOk(b, at, b.open[at]) && PieceOk(b, at', b.open[at']);
    FitNonEmpty(b, at);
    FitNonEmpty(b, at');
    assert b.head[at] == at && b.head[at'] == at';
  }

  lemma FitNonEmpty(b: Board, at: nat)
    requires BoardOk(b) && at in b.open
    ensures b.open[at].n > 0 && b.lo <= at && at + b.open[at].n <= b.hi <= |b.val|
  {
    assert PieceOk(b, at, b.open[at]);
  }

  lemma FromInside(b: Board, b': Board, at: nat, n: nat, p: nat) returns (p0: nat)
    requires Shaped(b) && Shaped(b') && |b'.val| == |b.val| && at + n <= |b.val|
    requires multiset(b'.val[at..at + n]) == multiset(b.val[at..at + n]) && at <= p < at + n
    ensures at <= p0 < at + n && b'.val[p] == b.val[p0]
  {
    var s, s' := b.val[at..at + n], b'.val[at..at + n];
    assert b'.val[p] == s'[p - at];
    assert s'[p - at] in multiset(s);
    var i :| 0 <= i < |s| && s[i] == s'[p - at];
    p0 := at + i;
  }

  /** Heads of positions outside a piece do not point into it. */
  lemma HeadsOutside(b: Board, at: nat, p: nat)
    requires BoardOk(b) && at in b.open && b.lo <= p < b.hi && !(at <= p < at + b.open[at].n)
    ensures !(at <= b.head[p] < at + b.open[at].n)
  {
    hide Fit, Ordered;
    assert PieceOk(b, at, b.open[at]);
    var h := b.head[p];
    if at <= h < at + b.open[at].n {
      assert h == p || h in b.open;
      FitNonEmpty(b, at);
      if h != at {
        assert h in b.open;
        Apart(b, at, h);
        FitNonEmpty(b, h);
      }
      assert false;
    }
  }

  /** Rearranging one piece keeps different pieces in order. */
  lemma OrderedAfter(b: Board, b': Board, at: nat)
    requires BoardOk(b) && at in b.open && at + b.open[at].n <= |b.val|
    requires SameBeyond(b, b', at, b.open[at].n) && Rearranged(b, b', at, b.open[at].n)
    ensures Ordered(b')
  {
    hide Fit, Leq, Headed;
    var n := b.open[at].n;
    assert PieceOk(b, at, b.open[at]);
    forall p, q | b.lo <= p < q < b.hi && b'.head[p] != b'.head[q] ensures Leq(b'.val[p], b'.val[q]) {
      var inP, inQ := at <= p < at + n, at <= q < at + n;
      if inP && !inQ {
        var p0 := FromInside(b, b', at, n, p);
        assert b.head[p0] != b.head[q];
      } else if !inP && inQ {
        var q0 := FromInside(b, b', at, n, q);
        assert b.head[p] != b.head[q0];
      }
    }
  }

  lemma FitElsewhere(b: Board, b': Board, lo: nat, n: nat, at: nat, piece: Piece)
    requires Shaped(b) && SameBeyond(b, b', lo, n) && at + piece.n <= |b.val|
    requires at + piece.n <= lo || lo + n <= at
    requires Fit(b.val[at..at + piece.n], b.keys, at, piece)
    ensures Fit(b'.val[at..at + piece.n], b'.keys, at, piece)
  {
    hide K;
    assert b'.val[at..at + piece.n] == b.val[at..at + piece.n];
  }

  lemma OtherKept(b: Board, b': Board, at: nat, at': nat)
    requires BoardOk(b) && at in b.open && at' in b.open && at != at' && SameBeyond(b, b', at, b.open[at].n)
    requires at + b.open[at].n <= |b.val| && Rearranged(b, b', at, b.open[at].n)
    ensures PieceOk(b', at', b.open[at'])
  {
    hide Fit, Ordered, Leq, Headed;
    Apart(b, at, at');
    FitNonEmpty(b, at);
    FitNonEmpty(b, at');
    assert PieceOk(b, at', b.open[at']);
    FitElsewhere(b, b', at, b.open[at].n, at', b.open[at']);
  }

  /** A new open piece inside [at, at + n). */
  ghost predicate NewPiece(b': Board, at: nat, n: nat, x: nat, piece: Piece)
    requires Shaped(b')
  {
    && at <= x && x + piece.n <= at + n <= |b'.val|
    && (forall p | at <= p < at + n :: b'.head[p] == x <==> x <= p < x + piece.n)
    && (forall p | x <= p < x + piece.n :: !b'.written[p])
    && Fit(b'.val[x..x + piece.n], b'.keys, x, piece)
  }

  /** Piece at gives way to smaller pieces, or to none. */
  lemma Refine(b: Board, b': Board, at: nat, news: map<nat, Piece>)
    requires BoardOk(b) && at in b.open && at + b.open[at].n <= |b.val|
    requires SameBeyond(b, b', at, b.open[at].n) && Rearranged(b, b', at, b.open[at].n)
    requires b'.open == (b.open - {at}) + news
    requires forall x | x in news :: NewPiece(b', at, b.open[at].n, x, news[x])
    requires forall p | at <= p < at + b.open[at].n :: b'.head[p] == p || b'.head[p] in news
    ensures BoardOk(b')
  {
    OrderedAfter(b, b', at);
    RefineHeads(b, b', at, news);
    hide Fit, Ordered, Leq, Headed, Rearranged;
    forall x | x in b'.open ensures PieceOk(b', x, b'.open[x]) {
      if x in news {
        NewCovers(b, b', at, x, news[x]);
      } else {
        OtherKept(b, b', at, x);
      }
    }
  }

  lemma NewCovers(b: Board, b': Board, at: nat, x: nat, piece: Piece)
    requires BoardOk(b) && at in b.open && at + b.open[at].n <= |b.val|
    requires SameBeyond(b, b', at, b.open[at].n) && NewPiece(b', at, b.open[at].n, x, piece)
    ensures PieceOk(b', x, piece)
  {
    hide Ordered, Headed;
    FitNonEmpty(b, at);
    var n := b.open[at].n;
    forall p | b.lo <= p < b.hi ensures b'.head[p] == x <==> x <= p < x + piece.n {
      if !(at <= p < at + n) {
        HeadsOutside(b, at, p);
      }
    }
  }

  lemma RefineHeads(b: Board, b': Board, at: nat, news: map<nat, Piece>)
    requires BoardOk(b) && at in b.open && at + b.open[at].n <= |b.val|
    requires SameBeyond(b, b', at, b.open[at].n) && Rearranged(b, b', at, b.open[at].n)
    requires b'.open == (b.open - {at}) + news
    requires forall p | at <= p < at + b.open[at].n :: b'.head[p] == p || b'.head[p] in news
    ensures Headed(b')
  {
    hide Fit, Ordered, Leq;
    FitNonEmpty(b, at);
    forall p | b.lo <= p < b.hi ensures b.lo <= b'.head[p] <= p && (b'.head[p] == p || b'.head[p] in b'.open) {
      if !(at <= p < at + b.open[at].n) {
        HeadsOutside(b, at, p);
      }
    }
  }

  /** With no open piece the area is sorted. */
  lemma NoPieceLeft(b: Board)
    requires BoardOk(b) && b.open == map[]
    ensures Sorted(b.val[b.lo..b.hi])
  {
    hide Leq;
    var s := b.val[b.lo..b.hi];
    forall i, j | 0 <= i < j < |s| ensures Leq(s[i], s[j]) {
      assert b.head[b.lo + i] == b.lo + i && b.head[b.lo + j] == b.lo + j;
    }
  }

  // ---------------------------------------------------------- transitions

  /** Piece at was sorted, and written out if w. */
  ghost function Settle(b: Board, at: nat, val: seq<Str>, keys: seq<nat>, w: bool): (b': Board)
    requires Shaped(b) && at in b.open
  {
    var n := b.open[at].n;
    Board(b.lo, b.hi, val, seq(|b.head|, p requires 0 <= p < |b.head| => if at <= p < at + n then p else b.head[p]),
          b.open - {at}, keys, seq(|b.written|, p requires 0 <= p < |b.written| => if at <= p < at + n then w else b.written[p]))
  }

  /** val and keys differ only inside [at, at + n), where val was rearranged. */
  ghost predicate Moved(b: Board, val: seq<Str>, keys: seq<nat>, at: nat, n: nat)
    requires Shaped(b)
  {
    && |val| == |b.val| && |keys| == |b.keys| && at + n <= |val|
    && (forall p | 0 <= p < |val| && !(at <= p < at + n) :: val[p] == b.val[p] && keys[p] == b.keys[p])
    && multiset(val[at..at + n]) == multiset(b.val[at..at + n])
  }

  lemma SettleOk(b: Board, at: nat, val: seq<Str>, keys: seq<nat>, w: bool)
    requires BoardOk(b) && at in b.open && Moved(b, val, keys, at, b.open[at].n)
    requires Sorted(val[at..at + b.open[at].n])
    ensures BoardOk(Settle(b, at, val, keys, w))
  {
    var n := b.open[at].n;
    var b' := Settle(b, at, val, keys, w);
    FitNonEmpty(b, at);
    SortedSlice(val, at, n);
    hide BoardOk, Leq, Sorted;
    assert (b.open - {at}) + map[] == b.open - {at};
    Refine(b, b', at, map[]);
  }

  lemma SortedSlice(val: seq<Str>, at: nat, n: nat)
    requires at + n <= |val| && Sorted(val[at..at + n])
    ensures forall p, q | at <= p < q < at + n :: Leq(val[p], val[q])
  {
    hide Leq;
    var s := val[at..at + n];
    forall p, q | at <= p < q < at + n ensures Leq(val[p], val[q]) {
      assert s[p - at] == val[p] && s[q - at] == val[q];
    }
  }

  /** Where a ternary partition of piece at put position p. */
  ghost function TernaryHead(at: nat, lt: nat, eq: nat, p: nat): (h: nat)
    requires at <= p
  {
    if p < at + lt then at else if p < at + lt + eq then at + lt else at + lt + eq
  }

  /** The parts that are not empty. */
  ghost function TernaryPieces(at: nat, depth: nat, lt: nat, eq: nat, gt: nat, same: bool): (news: map<nat, Piece>) {
    (if lt > 0 then map[at := Piece(lt, depth, false, false)] else map[])
    + (if eq > 0 then map[at + lt := Piece(eq, depth + 8, true, same)] else map[])
    + (if gt > 0 then map[at + lt + eq := Piece(gt, depth, false, false)] else map[])
  }

  ghost function Split(b: Board, at: nat, val: seq<Str>, keys: seq<nat>, lt: nat, eq: nat, gt: nat, same: bool): (b': Board)
    requires Shaped(b) && at in b.open
  {
    var n := b.open[at].n;
    Board(b.lo, b.hi, val,
          seq(|b.head|, p requires 0 <= p < |b.head| => if at <= p < at + n then TernaryHead(at, lt, eq, p) else b.head[p]),
          (b.open - {at}) + TernaryPieces(at, b.open[at].depth, lt, eq, gt, same), keys, b.written)
  }

  /** What Split needs from the partition t of the piece. */
  ghost predicate SplitFits(t: seq<Str>, keys: seq<nat>, at: nat, depth: nat, lt: nat, eq: nat, gt: nat, same: bool) {
    && lt + eq + gt == |t| && eq > 0
    && (forall p, q | 0 <= p < q < |t| && TernaryHead(0, lt, eq, p) != TernaryHead(0, lt, eq, q) :: Leq(t[p], t[q]))
    && (lt > 0 ==> Fit(t[..lt], keys, at, Piece(lt, depth, false, false)))
    && Fit(t[lt..lt + eq], keys, at + lt, Piece(eq, depth + 8, true, same))
    && (gt > 0 ==> Fit(t[lt + eq..], keys, at + lt + eq, Piece(gt, depth, false, false)))
  }

  lemma SplitOk(b: Board, at: nat, val: seq<Str>, keys: seq<nat>, lt: nat, eq: nat, gt: nat, same: bool)
    requires BoardOk(b) && at in b.open && Moved(b, val, keys, at, b.open[at].n)
    requires SplitFits(val[at..at + b.open[at].n], keys, at, b.open[at].depth, lt, eq, gt, same)
    ensures BoardOk(Split(b, at, val, keys, lt, eq, gt, same))
  {
    var n := b.open[at].n;
    var b' := Split(b, at, val, keys, lt, eq, gt, same);
    var news := TernaryPieces(at, b.open[at].depth, lt, eq, gt, same);
    FitNonEmpty(b, at);
    NotWritten(b, at);
    SplitRearranged(b, at, val, keys, lt, eq, gt, same);
    SplitNew(b, at, val, keys, lt, eq, gt, same);
    hide BoardOk, Fit, SplitFits, NewPiece, Rearranged;
    Refine(b, b', at, news);
  }

  lemma NotWritten(b: Board, at: nat)
    requires BoardOk(b) && at in b.open
    ensures Shaped(b) && forall p | at <= p < at + b.open[at].n && p < |b.written| :: !b.written[p]
  {
    assert PieceOk(b, at, b.open[at]);
  }

  lemma SplitRearranged(b: Board, at: nat, val: seq<Str>, keys: seq<nat>, lt: nat, eq: nat, gt: nat, same: bool)
    requires Shaped(b) && at in b.open && Moved(b, val, keys, at, b.open[at].n)
    requires SplitFits(val[at..at + b.open[at].n], keys, at, b.open[at].depth, lt, eq, gt, same)
    ensures var b' := Split(b, at, val, keys, lt, eq, gt, same);
            Shaped(b') && SameBeyond(b, b', at, b.open[at].n) && Rearranged(b, b', at, b.open[at].n)
  {
    hide Fit, Leq;
    var n := b.open[at].n;
    var b' := Split(b, at, val, keys, lt, eq, gt, same);
    var t := val[at..at + n];
    forall p, q | at <= p < q < at + n && b'.head[p] != b'.head[q] ensures Leq(b'.val[p], b'.val[q]) {
      assert t[p - at] == val[p] && t[q - at] == val[q];
      assert TernaryHead(0, lt, eq, p - at) != TernaryHead(0, lt, eq, q - at);
    }
  }

  lemma SubSlice(val: seq<Str>, at: nat, n: nat, i: nat, j: nat)
    requires at + n <= |val| && i <= j <= n
    ensures val[at..at + n][i..j] == val[at + i..at + j]
  {
    var s, u, v := val[at..at + n], val[at..at + n][i..j], val[at + i..at + j];
    forall k | 0 <= k < |u| ensures u[k] == v[k] {
      assert u[k] == s[i + k];
    }
  }

  /** One part of the partition as a new piece. */
  lemma NewPart(b': Board, at: nat, n: nat, lt: nat, eq: nat, i: nat, piece: Piece)
    requires Shaped(b') && at + n <= |b'.val| && i + piece.n <= n
    requires forall p | at <= p < at + n :: b'.head[p] == TernaryHead(at, lt, eq, p) && !b'.written[p]
    requires forall p | at <= p < at + n :: TernaryHead(at, lt, eq, p) == at + i <==> at + i <= p < at + i + piece.n
    requires Fit(b'.val[at..at + n][i..i + piece.n], b'.keys, at + i, piece)
    ensures NewPiece(b', at, n, at + i, piece)
  {
    hide Fit, TernaryHead;
    SubSlice(b'.val, at, n, i, i + piece.n);
  }

  lemma SplitNew(b: Board, at: nat, val: seq<Str>, keys: seq<nat>, lt: nat, eq: nat, gt: nat, same: bool)
    requires Shaped(b) && at in b.open && Moved(b, val, keys, at, b.open[at].n)
    requires forall p | at <= p < at + b.open[at].n :: !b.written[p]
    requires SplitFits(val[at..at + b.open[at].n], keys, at, b.open[at].depth, lt, eq, gt, same)
    ensures var b' := Split(b, at, val, keys, lt, eq, gt, same);
            var news := TernaryPieces(at, b.open[at].depth, lt, eq, gt, same);
            && Shaped(b') && (forall x | x in news :: NewPiece(b', at, b.open[at].n, x, news[x]))
            && (forall p | at <= p < at + b.open[at].n :: b'.head[p] == p || b'.head[p] in news)
  {
    hide Fit, Leq, NewPiece;
    var n, depth := b.open[at].n, b.open[at].depth;
    var b' := Split(b, at, val, keys, lt, eq, gt, same);
    var t := val[at..at + n];
    assert forall p | at <= p < at + n :: b'.head[p] == TernaryHead(at, lt, eq, p);
    assert t[..lt] == t[0..lt] && t[lt + eq..] == t[lt + eq..lt + eq + gt];
    if lt > 0 { NewPart(b', at, n, lt, eq, 0, Piece(lt, depth, false, false)); }
    NewPart(b', at, n, lt, eq, lt, Piece(eq, depth + 8, true, same));
    if gt > 0 { NewPart(b', at, n, lt, eq, lt + eq, Piece(gt, depth, false, false)); }
  }
}
