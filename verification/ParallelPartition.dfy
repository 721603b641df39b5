/** The parallel three-way block partition of src/parallel/bingmann-parallel_mkqs.hpp:
    several workers take blocks from a shared source, partition them in place, and
    push pure blocks into three shared queues. A buffer is owned by one worker or
    queue at a time (unique_ptr), so blocks are values here. */
module ParallelPartition {
  import CachedInsertion
  import Partition
  import StableSort
  import opened Strings
  import opened Wrappers

  /** StrCache: a string with its cached key. */
  datatype Entry = Entry(key: nat, str: Str)

  /** The filled cells of a block. */
  type Block = seq<Entry>

  const BLOCK_SIZE: nat := 128 * 1024

  datatype Type = LT | EQ | GT

  /** The side of the pivot that a queue is for. */
  predicate Right(t: Type, key: nat, pivot: nat) {
    match t
    case LT => key < pivot
    case EQ => key == pivot
    case GT => key > pivot
  }

  function TypeOf(key: nat, pivot: nat): (t: Type)
    ensures Right(t, key, pivot)
  {
    if key < pivot then LT else if key == pivot then EQ else GT
  }

  /** PartitionBlock: cells [0, pos) are on the right side; fill is the number of
      cells. */
  datatype Part = Part(pos: nat, blk: Option<Block>, partial: bool)

  function Cells(b: Part): (c: Block) {
    if b.blk.Some? then b.blk.value else []
  }

  /** What all workers share: the block source, the output queues and counters. */
  datatype Shared = Shared(source: seq<Block>, next: nat, lt: seq<Block>, eq: seq<Block>, gt: seq<Block>, countLt: nat, countEq: nat)

  function Queue(sh: Shared, t: Type): (q: seq<Block>) {
    match t
    case LT => sh.lt
    case EQ => sh.eq
    case GT => sh.gt
  }

  /** oblk_push() */
  function Push(sh: Shared, t: Type, b: Block): (sh': Shared) {
    match t
    case LT => sh.(lt := sh.lt + [b], countLt := sh.countLt + |b|)
    case EQ => sh.(eq := sh.eq + [b], countEq := sh.countEq + |b|)
    case GT => sh.(gt := sh.gt + [b])
  }

  // -------------------------------------------------- PartitionBlock members

  /** has_src_block(): whether there is an element to look at; a block that is used
      up makes room for a new one. */
  function HasSource(b: Part, t: Type, sh: Shared): (r: (Part, Shared, bool))
    requires sh.next <= |sh.source|
  {
    if b.pos < |Cells(b)| then (b, sh, true)
    else
      var newblk := if sh.next < |sh.source| then Some(sh.source[sh.next]) else None;
      var sh1 := if newblk.Some? then sh.(next := sh.next + 1) else sh;
      if newblk.Some? || |Cells(b)| == BLOCK_SIZE then
        var sh2 := if b.blk.Some? then Push(sh1, t, b.blk.value) else sh1;
        (Part(0, newblk, b.partial), sh2, newblk.Some? && newblk.value != [])
      else (b, sh1, false)
  }

  /** front_cache() */
  function Front(b: Part): (e: Entry)
    requires b.pos < |Cells(b)|
  {
    Cells(b)[b.pos]
  }

  function WithFront(b: Part, e: Entry): (b': Part)
    requires b.pos < |Cells(b)|
  {
    b.(blk := Some(Cells(b)[b.pos := e]))
  }

  function Advance(b: Part): (b': Part) {
    b.(pos := b.pos + 1)
  }

  /** from.front_cache() = from.back_cache(), from.fill-- */
  function DropFront(b: Part): (b': Part)
    requires b.pos < |Cells(b)|
  {
    var c := Cells(b);
    b.(blk := Some(c[b.pos := c[|c| - 1]][..|c| - 1]))
  }

  /** fill++, front_cache() = e, pos++ at the end of the filled cells. */
  function Append(b: Part, e: Entry): (b': Part) {
    b.(pos := b.pos + 1, blk := Some(Cells(b) + [e]))
  }

  /** check_partial_block(): a block with free space. */
  function CheckPartial(b: Part, t: Type, sh: Shared): (r: (Part, Shared)) {
    if b.blk.Some? && b.pos < BLOCK_SIZE then (b, sh)
    else (Part(0, Some([]), true), if b.blk.Some? then Push(sh, t, b.blk.value) else sh)
  }

  /** swap_or_move_to(): the front of `from` goes to block b of type t. */
  function SwapOrMove(b: Part, t: Type, from: Part, sh: Shared): (r: (Part, Part, Shared))
    requires from.pos < |Cells(from)|
  {
    if !b.partial && b.pos < BLOCK_SIZE then
      if b.pos < |Cells(b)| then (Advance(WithFront(b, Front(from))), WithFront(from, Front(b)), sh)
      else (Append(b, Front(from)), DropFront(from), sh)
    else
      var (b1, sh1) := CheckPartial(b, t, sh);
      (Append(b1, Front(from)), DropFront(from), sh1)
  }

  // -------------------------------------------------------------- invariant

  ghost predicate Pure(t: Type, b: Block, pivot: nat) {
    forall i | 0 <= i < |b| :: Right(t, b[i].key, pivot)
  }

  ghost predicate PartOk(b: Part, t: Type, pivot: nat) {
    && b.pos <= |Cells(b)| <= BLOCK_SIZE && Pure(t, Cells(b)[..b.pos], pivot)
    && (b.partial ==> b.pos == |Cells(b)|)
  }

  /** Sum of the entries of a queue. */
  ghost function Flat(q: seq<Block>): (m: multiset<Entry>) {
    if q == [] then multiset{} else Flat(q[..|q| - 1]) + multiset(q[|q| - 1])
  }

  ghost function Entries(sh: Shared): (m: multiset<Entry>)
    requires sh.next <= |sh.source|
  {
    Flat(sh.source[sh.next..]) + Flat(sh.lt) + Flat(sh.eq) + Flat(sh.gt)
  }

  ghost function Total(q: seq<Block>): (n: nat) {
    if q == [] then 0 else Total(q[..|q| - 1]) + |q[|q| - 1]|
  }

  ghost predicate QueueOk(q: seq<Block>, t: Type, pivot: nat) {
    forall i | 0 <= i < |q| :: q[i] != [] && |q[i]| <= BLOCK_SIZE && Pure(t, q[i], pivot)
  }

  ghost predicate SharedOk(sh: Shared, pivot: nat) {
    && sh.next <= |sh.source| && (forall i | 0 <= i < |sh.source| :: 0 < |sh.source[i]| <= BLOCK_SIZE)
    && QueueOk(sh.lt, LT, pivot) && QueueOk(sh.eq, EQ, pivot) && QueueOk(sh.gt, GT, pivot)
    && sh.countLt == Total(sh.lt) && sh.countEq == Total(sh.eq)
  }

  lemma QueuePush(q: seq<Block>, b: Block, t: Type, pivot: nat)
    requires QueueOk(q, t, pivot) && b != [] && |b| <= BLOCK_SIZE && Pure(t, b, pivot)
    ensures QueueOk(q + [b], t, pivot) && Total(q + [b]) == Total(q) + |b|
  {
    hide Pure;
    assert (q + [b])[..|q|] == q;
  }

  lemma PushOk(sh: Shared, t: Type, b: Block, pivot: nat)
    requires SharedOk(sh, pivot) && b != [] && |b| <= BLOCK_SIZE && Pure(t, b, pivot)
    ensures SharedOk(Push(sh, t, b), pivot) && Entries(Push(sh, t, b)) == Entries(sh) + multiset(b)
    ensures Push(sh, t, b).source == sh.source && Push(sh, t, b).next == sh.next
  {
    hide Pure, Entries, QueueOk, Total;
    PushEntries(sh, t, b);
    QueuePush(Queue(sh, t), b, t, pivot);
  }

  lemma PushEntries(sh: Shared, t: Type, b: Block)
    requires sh.next <= |sh.source|
    ensures Entries(Push(sh, t, b)) == Entries(sh) + multiset(b)
  {
    var q := Queue(sh, t);
    assert (q + [b])[..|q|] == q;
    assert Flat(q + [b]) == Flat(q) + multiset(b);
    hide Flat;
  }

  /** Fetching a block moves its entries from the source to the worker. */
  lemma {:induction false} FlatHead(q: seq<Block>)
    requires q != []
    ensures Flat(q) == multiset(q[0]) + Flat(q[1..])
  {
    if |q| > 1 {
      FlatHead(q[..|q| - 1]);
      assert q[..|q| - 1][1..] == q[1..][..|q| - 2];
      assert q[1..][|q| - 2] == q[|q| - 1];
    } else {
      assert q[..0] == [];
    }
  }

  /** Unpartitioned cells. */
  function Unknown(b: Part): (n: int) {
    |Cells(b)| - b.pos
  }

  /** In the first phase a block is never empty. */
  ghost predicate Phase1Ok(b: Part, t: Type, pivot: nat) {
    PartOk(b, t, pivot) && !b.partial && (b.blk.Some? ==> b.blk.value != [])
  }

  lemma HasSourceOk(b: Part, t: Type, sh: Shared, pivot: nat)
    requires Phase1Ok(b, t, pivot) && SharedOk(sh, pivot)
    ensures var (b', sh', ok) := HasSource(b, t, sh);
            && Phase1Ok(b', t, pivot) && SharedOk(sh', pivot)
            && multiset(Cells(b')) + Entries(sh') == multiset(Cells(b)) + Entries(sh)
            && sh'.source == sh.source && sh.next <= sh'.next && (ok <==> b'.pos < |Cells(b')|)
            && (!ok ==> sh'.next == |sh.source|)
            && (ok ==> (b' == b && sh' == sh) || (sh'.next == sh.next + 1 && Unknown(b') == |sh.source[sh.next]| && Unknown(b) == 0))
            && (!ok ==> Unknown(b') == 0 == Unknown(b) && sh'.next == sh.next)
  {
    hide Entries, Flat, SharedOk, Push, Pure;
    SharedNext(sh, pivot);
    if b.pos == |Cells(b)| {
      assert Cells(b)[..b.pos] == Cells(b);
      if sh.next < |sh.source| {
        FetchEntries(sh);
        FetchOk(sh, pivot);
        PureNone(t, sh.source[sh.next], pivot);
        var sh1 := sh.(next := sh.next + 1);
        if b.blk.Some? { PushOk(sh1, t, b.blk.value, pivot); }
      } else if |Cells(b)| == BLOCK_SIZE {
        PushOk(sh, t, b.blk.value, pivot);
        PureNone(t, [], pivot);
      }
    }
  }

  lemma PureNone(t: Type, b: Block, pivot: nat)
    ensures Pure(t, b[..0], pivot)
  {
  }

  lemma SharedNext(sh: Shared, pivot: nat)
    requires SharedOk(sh, pivot)
    ensures sh.next <= |sh.source|
  {
  }

  lemma FetchOk(sh: Shared, pivot: nat)
    requires SharedOk(sh, pivot) && sh.next < |sh.source|
    ensures SharedOk(sh.(next := sh.next + 1), pivot) && 0 < |sh.source[sh.next]| <= BLOCK_SIZE
  {
  }

  lemma FetchEntries(sh: Shared)
    requires sh.next < |sh.source|
    ensures Entries(sh.(next := sh.next + 1)) + multiset(sh.source[sh.next]) == Entries(sh)
  {
    FlatHead(sh.source[sh.next..]);
    assert sh.source[sh.next..][1..] == sh.source[sh.next + 1..];
  }

  lemma SwappedPure(b: Part, t: Type, e: Entry, pivot: nat)
    requires PartOk(b, t, pivot) && b.pos < |Cells(b)| && Right(t, e.key, pivot)
    ensures PartOk(Advance(WithFront(b, e)), t, pivot)
    ensures multiset(Cells(WithFront(b, e))) + multiset{Front(b)} == multiset(Cells(b)) + multiset{e}
  {
  }

  lemma AppendedPure(b: Part, t: Type, e: Entry, pivot: nat)
    requires PartOk(b, t, pivot) && b.pos == |Cells(b)| < BLOCK_SIZE && Right(t, e.key, pivot)
    ensures PartOk(Append(b, e), t, pivot) && multiset(Cells(Append(b, e))) == multiset(Cells(b)) + multiset{e}
    ensures Unknown(Append(b, e)) == 0
  {
    assert Cells(b)[..b.pos] == Cells(b);
  }

  lemma DroppedPure(b: Part, t: Type, pivot: nat)
    requires PartOk(b, t, pivot) && b.pos < |Cells(b)|
    ensures PartOk(DropFront(b), t, pivot) && multiset(Cells(DropFront(b))) + multiset{Front(b)} == multiset(Cells(b))
    ensures Unknown(DropFront(b)) == Unknown(b) - 1
  {
    var c := Cells(b);
    var k := |c| - 1;
    assert c == c[..k] + [c[k]];
    var d := c[b.pos := c[k]][..k];
    if b.pos < k {
      assert d == c[..k][b.pos := c[k]];
    } else {
      assert d == c[..k];
    }
    assert d[..b.pos] == c[..b.pos];
  }

  lemma ReplacedFront(b: Part, t: Type, e: Entry, pivot: nat)
    requires PartOk(b, t, pivot) && b.pos < |Cells(b)|
    ensures PartOk(WithFront(b, e), t, pivot) && Unknown(WithFront(b, e)) == Unknown(b)
    ensures multiset(Cells(WithFront(b, e))) + multiset{Front(b)} == multiset(Cells(b)) + multiset{e}
  {
    assert Cells(WithFront(b, e))[..b.pos] == Cells(b)[..b.pos];
  }

  lemma CheckPartialOk(b: Part, t: Type, sh: Shared, pivot: nat)
    requires PartOk(b, t, pivot) && SharedOk(sh, pivot) && (b.partial || b.pos == |Cells(b)| == BLOCK_SIZE)
    ensures var (b', sh') := CheckPartial(b, t, sh);
            && PartOk(b', t, pivot) && SharedOk(sh', pivot) && b'.pos == |Cells(b')| < BLOCK_SIZE
            && multiset(Cells(b')) + Entries(sh') == multiset(Cells(b)) + Entries(sh)
            && sh'.source == sh.source && sh'.next == sh.next
  {
    hide SharedOk, Entries, Push;
    SharedNext(sh, pivot);
    assert Cells(b)[..b.pos] == Cells(b);
    if b.blk.Some? && b.pos == BLOCK_SIZE {
      PushOk(sh, t, b.blk.value, pivot);
    }
  }

  /** One move: an unpartitioned cell less, nothing lost, everything pure. */
  lemma SwapOrMoveOk(b: Part, t: Type, from: Part, u: Type, sh: Shared, pivot: nat)
    requires PartOk(b, t, pivot) && PartOk(from, u, pivot) && SharedOk(sh, pivot) && (b.blk.None? ==> b.partial)
    requires from.pos < |Cells(from)| && Right(t, Front(from).key, pivot)
    ensures var (b', from', sh') := SwapOrMove(b, t, from, sh);
            && PartOk(b', t, pivot) && PartOk(from', u, pivot) && SharedOk(sh', pivot) && b'.blk.Some? && from'.blk.Some?
            && multiset(Cells(b')) + multiset(Cells(from')) + Entries(sh')
               == multiset(Cells(b)) + multiset(Cells(from)) + Entries(sh)
            && sh'.source == sh.source && sh'.next == sh.next && from'.partial == from.partial
            && Unknown(b') + Unknown(from') == Unknown(b) + Unknown(from) - 1 && Unknown(b') <= Unknown(b)
  {
    hide SharedOk, Entries, PartOk, CheckPartial;
    SharedNext(sh, pivot);
    PartRange(b, t, pivot);
    PartRange(from, u, pivot);
    if !b.partial && b.pos < BLOCK_SIZE && b.pos < |Cells(b)| {
      SwappedPure(b, t, Front(from), pivot);
      ReplacedFront(from, u, Front(b), pivot);
    } else {
      var (b1, sh1) := if !b.partial && b.pos < BLOCK_SIZE then (b, sh) else CheckPartial(b, t, sh);
      if b.partial || b.pos >= BLOCK_SIZE {
        CheckPartialOk(b, t, sh, pivot);
      }
      AppendedPure(b1, t, Front(from), pivot);
      DroppedPure(from, u, pivot);
      MoveBalance(multiset(Cells(b)), multiset(Cells(b1)), multiset(Cells(DropFront(from))), Entries(sh), Entries(sh1), multiset{Front(from)});
    }
  }

  lemma MoveBalance(x: multiset<Entry>, x1: multiset<Entry>, f': multiset<Entry>, s: multiset<Entry>, s1: multiset<Entry>, e: multiset<Entry>)
    requires x1 + s1 == x + s
    ensures (x1 + e) + f' + s1 == x + (f' + e) + s
  {
    assert (x1 + e) + f' + s1 == (x1 + s1) + (f' + e);
    assert x + (f' + e) + s == (x + s) + (f' + e);
  }

  lemma PartRange(b: Part, t: Type, pivot: nat)
    requires PartOk(b, t, pivot)
    ensures b.pos <= |Cells(b)| <= BLOCK_SIZE && (b.partial ==> b.pos == |Cells(b)|)
  {
  }

  // ----------------------------------------------------------- one worker

  /** Where partition() stands: before has_src_block of lt, eq or gt, in one of the
      three finish_partial loops, or before one of the three last pushes. */
  datatype Pc = LtSource | LtLook | GtSource | GtLook | Finish(t: Type) | Output(t: Type) | Done

  datatype Worker = Worker(lt: Part, eq: Part, gt: Part, pc: Pc)

  function Get(w: Worker, t: Type): (b: Part) {
    match t
    case LT => w.lt
    case EQ => w.eq
    case GT => w.gt
  }

  function Set(w: Worker, t: Type, b: Part): (w': Worker) {
    match t
    case LT => w.(lt := b)
    case EQ => w.(eq := b)
    case GT => w.(gt := b)
  }

  function AfterFinish(t: Type): (pc: Pc) {
    match t
    case LT => Finish(EQ)
    case EQ => Finish(GT)
    case GT => Output(LT)
  }

  function AfterOutput(t: Type): (pc: Pc) {
    match t
    case LT => Output(EQ)
    case EQ => Output(GT)
    case GT => Done
  }

  /** No full block is left: phase 2 starts. */
  function StartPartials(w: Worker): (w': Worker) {
    Worker(w.lt.(partial := w.lt.blk.None?), w.eq.(partial := w.eq.blk.None?), w.gt.(partial := w.gt.blk.None?), Finish(LT))
  }

  /** Exchange of the front cells of two parts. */
  function SwapFronts(w: Worker, t: Type, u: Type): (w': Worker)
    requires t != u && Get(w, t).pos < |Cells(Get(w, t))| && Get(w, u).pos < |Cells(Get(w, u))|
  {
    var x, y := Front(Get(w, t)), Front(Get(w, u));
    Set(Set(w, t, WithFront(Get(w, t), y)), u, WithFront(Get(w, u), x))
  }

  /** The front of lt is compared with the pivot. */
  function LookAtLt(w: Worker, pivot: nat): (w': Worker)
    requires w.lt.pos < |Cells(w.lt)| && w.eq.pos < |Cells(w.eq)|
  {
    var key := Front(w.lt).key;
    if key < pivot then w.(lt := Advance(w.lt), pc := LtSource)
    else if key == pivot then
      var w2 := SwapFronts(w, LT, EQ);
      w2.(eq := Advance(w2.eq), pc := LtSource)
    else w.(pc := GtSource)
  }

  /** The front of gt is compared; a small one changes places with that of lt. */
  function LookAtGt(w: Worker, pivot: nat): (w': Worker)
    requires w.lt.pos < |Cells(w.lt)| && w.eq.pos < |Cells(w.eq)| && w.gt.pos < |Cells(w.gt)|
  {
    var key := Front(w.gt).key;
    if key < pivot then
      var w2 := SwapFronts(w, LT, GT);
      w2.(lt := Advance(w2.lt), gt := Advance(w2.gt), pc := LtSource)
    else if key == pivot then
      var w2 := SwapFronts(w, GT, EQ);
      w2.(eq := Advance(w2.eq), pc := GtSource)
    else w.(gt := Advance(w.gt), pc := GtSource)
  }

  /** Block t of the worker has been pushed or dropped. */
  function Released(w: Worker, t: Type): (w': Worker) {
    Set(w, t, Part(0, None, Get(w, t).partial)).(pc := AfterOutput(t))
  }

  /** One atomic action of partition(). */
  function Act(w: Worker, sh: Shared, pivot: nat): (r: (Worker, Shared))
    requires sh.next <= |sh.source| && WorkerShape(w)
  {
    match w.pc
    case LtSource =>
      var (lt, sh', ok) := HasSource(w.lt, LT, sh);
      (if ok then w.(lt := lt, pc := LtLook) else StartPartials(w.(lt := lt)), sh')
    case LtLook =>
      var (eq, sh', ok) := HasSource(w.eq, EQ, sh);
      if !ok || eq.pos >= |Cells(eq)| then (StartPartials(w.(eq := eq)), sh')
      else (LookAtLt(w.(eq := eq), pivot), sh')
    case GtSource =>
      var (gt, sh', ok) := HasSource(w.gt, GT, sh);
      (if ok then w.(gt := gt, pc := GtLook) else StartPartials(w.(gt := gt)), sh')
    case GtLook =>
      var (eq, sh', ok) := HasSource(w.eq, EQ, sh);
      if !ok || eq.pos >= |Cells(eq)| then (StartPartials(w.(eq := eq)), sh')
      else (LookAtGt(w.(eq := eq), pivot), sh')
    case Finish(t) =>
      var b := Get(w, t);
      if b.blk.None? || b.partial || b.pos >= |Cells(b)| then (w.(pc := AfterFinish(t)), sh)
      else
        var u := TypeOf(Front(b).key, pivot);
        if u == t then (Set(w, t, Advance(b)), sh)
        else
          var (b', from', sh') := SwapOrMove(Get(w, u), u, b, sh);
          (Set(Set(w, u, b'), t, from'), sh')
    case Output(t) =>
      var b := Get(w, t);
      (Released(w, t), if b.blk.Some? && b.blk.value != [] then Push(sh, t, b.blk.value) else sh)
    case Done => (w, sh)
  }

  /** The elements that partition() looks at are there. */
  predicate WorkerShape(w: Worker) {
    && (w.pc.LtLook? || w.pc.GtSource? || w.pc.GtLook? ==> w.lt.pos < |Cells(w.lt)|)
    && (w.pc.GtLook? ==> w.gt.pos < |Cells(w.gt)|)
  }

  predicate InPhase1(w: Worker) {
    w.pc.LtSource? || w.pc.LtLook? || w.pc.GtSource? || w.pc.GtLook?
  }

  /** Whether finish_partial of type t is over. */
  predicate FinishOver(pc: Pc, t: Type) {
    pc.Output? || pc.Done? || (pc.Finish? && ((pc.t == GT && t != GT) || (pc.t == EQ && t == LT)))
  }

  predicate OutputOver(pc: Pc, t: Type) {
    pc.Done? || (pc.Output? && ((pc.t == GT && t != GT) || (pc.t == EQ && t == LT)))
  }

  ghost predicate PartInPhase2(w: Worker, t: Type, pivot: nat) {
    var b := Get(w, t);
    && PartOk(b, t, pivot) && (b.blk.None? ==> b.partial || OutputOver(w.pc, t))
    && (FinishOver(w.pc, t) ==> Unknown(b) == 0) && (OutputOver(w.pc, t) ==> b.blk.None?)
  }

  ghost predicate WorkerOk(w: Worker, pivot: nat) {
    && WorkerShape(w)
    && (w.pc.GtSource? || w.pc.GtLook? ==> Front(w.lt).key > pivot)
    && if InPhase1(w) then Phase1Ok(w.lt, LT, pivot) && Phase1Ok(w.eq, EQ, pivot) && Phase1Ok(w.gt, GT, pivot)
       else PartInPhase2(w, LT, pivot) && PartInPhase2(w, EQ, pivot) && PartInPhase2(w, GT, pivot)
  }

  ghost function Held(w: Worker): (m: multiset<Entry>) {
    multiset(Cells(w.lt)) + multiset(Cells(w.eq)) + multiset(Cells(w.gt))
  }

  function Rank(pc: Pc): (r: nat) {
    match pc
    case LtSource => 10
    case LtLook => 9
    case GtSource => 8
    case GtLook => 7
    case Finish(t) => if t == LT then 6 else if t == EQ then 5 else 4
    case Output(t) => if t == LT then 3 else if t == EQ then 2 else 1
    case Done => 0
  }

  /** What is left to do, with u unpartitioned cells. */
  function Effort(w: Worker): (e: int) {
    11 * (Unknown(w.lt) + Unknown(w.eq) + Unknown(w.gt)) + Rank(w.pc)
  }

  /** What every action of a worker keeps. */
  ghost predicate ActKeeps(w: Worker, sh: Shared, w': Worker, sh': Shared, pivot: nat) {
    && WorkerOk(w', pivot) && SharedOk(sh', pivot) && sh.next <= sh'.next && sh'.source == sh.source
    && Held(w') + Entries(sh') == Held(w) + Entries(sh)
    && (InPhase1(w') || sh'.next == |sh.source|)
  }

  ghost function Unfetched(sh: Shared): (n: nat)
    requires sh.next <= |sh.source|
  {
    Total(sh.source[sh.next..])
  }

  lemma {:induction false} TotalHead(q: seq<Block>)
    requires q != []
    ensures Total(q) == |q[0]| + Total(q[1..])
  {
    if |q| > 1 {
      TotalHead(q[..|q| - 1]);
      assert q[..|q| - 1][1..] == q[1..][..|q| - 2];
      assert q[1..][|q| - 2] == q[|q| - 1];
    } else {
      assert q[..0] == [];
    }
  }

  lemma UnfetchedNext(sh: Shared)
    requires sh.next < |sh.source|
    ensures Unfetched(sh) == |sh.source[sh.next]| + Unfetched(sh.(next := sh.next + 1))
  {
    TotalHead(sh.source[sh.next..]);
    assert sh.source[sh.next..][1..] == sh.source[sh.next + 1..];
  }

  /** has_src_block() pays for the cells of the block it fetches. */
  lemma SourcePays(b: Part, t: Type, sh: Shared, pivot: nat)
    requires Phase1Ok(b, t, pivot) && SharedOk(sh, pivot)
    ensures var (b', sh', ok) := HasSource(b, t, sh);
            sh'.next <= |sh'.source| && Unfetched(sh') + Unknown(b') == Unfetched(sh) + Unknown(b)
  {
    hide PartOk, Unfetched, SharedOk, Pure;
    SharedNext(sh, pivot);
    HasSourceOk(b, t, sh, pivot);
    var (b', sh', ok) := HasSource(b, t, sh);
    if sh'.next == sh.next + 1 {
      UnfetchedNext(sh);
      UnfetchedSame(sh', sh.(next := sh.next + 1));
    } else {
      UnfetchedSame(sh', sh);
    }
  }

  lemma UnfetchedSame(sh: Shared, sh': Shared)
    requires sh.next == sh'.next <= |sh.source| && sh.source == sh'.source
    ensures Unfetched(sh) == Unfetched(sh')
  {
  }

  lemma StartPartialsOk(w: Worker, pivot: nat)
    requires Phase1Ok(w.lt, LT, pivot) && Phase1Ok(w.eq, EQ, pivot) && Phase1Ok(w.gt, GT, pivot)
    ensures WorkerOk(StartPartials(w), pivot) && Held(StartPartials(w)) == Held(w)
    ensures Effort(StartPartials(w)) == 11 * (Unknown(w.lt) + Unknown(w.eq) + Unknown(w.gt)) + 6
  {
    hide Pure, Phase1Ok, PartOk, Unknown, Cells;
    PartialOk(w.lt, LT, pivot);
    PartialOk(w.eq, EQ, pivot);
    PartialOk(w.gt, GT, pivot);
  }

  lemma PartialOk(b: Part, t: Type, pivot: nat)
    requires Phase1Ok(b, t, pivot)
    ensures var b' := b.(partial := b.blk.None?);
            PartOk(b', t, pivot) && Cells(b') == Cells(b) && Unknown(b') == Unknown(b) && (b'.blk.None? ==> b'.partial)
  {
    hide Pure;
  }

  /** The action keeps the invariant and makes progress. */
  ghost predicate Good(w: Worker, sh: Shared, pivot: nat)
    requires sh.next <= |sh.source| && WorkerShape(w)
  {
    var (w', sh') := Act(w, sh, pivot);
    ActKeeps(w, sh, w', sh', pivot) && sh'.next <= |sh'.source| && 11 * Unfetched(sh') + Effort(w') < 11 * Unfetched(sh) + Effort(w)
  }

  /** A balance of one part and the shared state is one of the whole worker. */
  lemma HeldBalance(w: Worker, w': Worker, t: Type, s: multiset<Entry>, s': multiset<Entry>)
    requires multiset(Cells(Get(w', t))) + s' == multiset(Cells(Get(w, t))) + s
    requires forall u | u != t :: Cells(Get(w', u)) == Cells(Get(w, u))
    ensures Held(w') + s' == Held(w) + s
  {
    assert Cells(Get(w', LT)) == Cells(Get(w, LT)) || t == LT;
    assert Cells(Get(w', EQ)) == Cells(Get(w, EQ)) || t == EQ;
    assert Cells(Get(w', GT)) == Cells(Get(w, GT)) || t == GT;
    var x, y, z := multiset(Cells(w.lt)), multiset(Cells(w.eq)), multiset(Cells(w.gt));
    var x', y', z' := multiset(Cells(w'.lt)), multiset(Cells(w'.eq)), multiset(Cells(w'.gt));
    match t
    case LT => assert (x' + y + z) + s' == (x' + s') + (y + z); assert (x + y + z) + s == (x + s) + (y + z);
    case EQ => assert (x + y' + z) + s' == (y' + s') + (x + z); assert (x + y + z) + s == (y + s) + (x + z);
    case GT => assert (x + y + z') + s' == (z' + s') + (x + y); assert (x + y + z) + s == (z + s) + (x + y);
  }

  lemma LtSourceGood(w: Worker, sh: Shared, pivot: nat)
    requires w.pc.LtSource? && WorkerOk(w, pivot) && SharedOk(sh, pivot)
    ensures sh.next <= |sh.source| && Good(w, sh, pivot)
  {
    hide PartOk, SharedOk, HasSource, Entries, Unfetched, Phase1Ok;
    SharedNext(sh, pivot);
    HasSourceOk(w.lt, LT, sh, pivot);
    SourcePays(w.lt, LT, sh, pivot);
    var (lt, sh', ok) := HasSource(w.lt, LT, sh);
    HeldBalance(w, w.(lt := lt), LT, Entries(sh), Entries(sh'));
    if !ok {
      StartPartialsOk(w.(lt := lt), pivot);
    }
  }

  lemma GtSourceGood(w: Worker, sh: Shared, pivot: nat)
    requires w.pc.GtSource? && WorkerOk(w, pivot) && SharedOk(sh, pivot)
    ensures sh.next <= |sh.source| && Good(w, sh, pivot)
  {
    hide PartOk, SharedOk, HasSource, Entries, Unfetched, Phase1Ok;
    SharedNext(sh, pivot);
    HasSourceOk(w.gt, GT, sh, pivot);
    SourcePays(w.gt, GT, sh, pivot);
    var (gt, sh', ok) := HasSource(w.gt, GT, sh);
    HeldBalance(w, w.(gt := gt), GT, Entries(sh), Entries(sh'));
    if !ok {
      StartPartialsOk(w.(gt := gt), pivot);
    }
  }

  lemma Cancel(x: multiset<Entry>, y: multiset<Entry>, e: multiset<Entry>)
    requires x + e == y + e
    ensures x == y
  {
    assert (x + e) - e == x && (y + e) - e == y;
  }

  /** Two parts exchanged their front cells. */
  lemma ExchangeBalance(a: multiset<Entry>, a': multiset<Entry>, b: multiset<Entry>, b': multiset<Entry>, x: Entry, y: Entry)
    requires a' + multiset{x} == a + multiset{y} && b' + multiset{y} == b + multiset{x}
    ensures a' + b' == a + b
  {
    assert (a' + b') + multiset{x, y} == (a' + multiset{x}) + (b' + multiset{y});
    assert (a + b) + multiset{x, y} == (a + multiset{y}) + (b + multiset{x});
    Cancel(a' + b', a + b, multiset{x, y});
  }

  /** Phase 1: a cell of part b moves to the end of the checked cells of part c,
      whose type it has, in exchange for an unchecked one. */
  lemma ExchangeOk(b: Part, t: Type, c: Part, u: Type, pivot: nat)
    requires Phase1Ok(b, t, pivot) && Phase1Ok(c, u, pivot) && b.pos < |Cells(b)| && c.pos < |Cells(c)|
    requires Right(u, Front(b).key, pivot)
    ensures var b', c' := WithFront(b, Front(c)), Advance(WithFront(c, Front(b)));
            && Phase1Ok(b', t, pivot) && Phase1Ok(c', u, pivot) && b'.pos < |Cells(b')| && Front(b') == Front(c)
            && multiset(Cells(b')) + multiset(Cells(c')) == multiset(Cells(b)) + multiset(Cells(c))
            && Unknown(b') == Unknown(b) && Unknown(c') == Unknown(c) - 1
  {
    hide PartOk, Right, Pure;
    ReplacedFront(b, t, Front(c), pivot);
    SwappedPure(c, u, Front(b), pivot);
    ExchangeBalance(multiset(Cells(b)), multiset(Cells(WithFront(b, Front(c)))), multiset(Cells(c)),
                    multiset(Cells(WithFront(c, Front(b)))), Front(b), Front(c));
  }

  lemma AdvancedOk(b: Part, t: Type, pivot: nat)
    requires PartOk(b, t, pivot) && b.pos < |Cells(b)| && Right(t, Front(b).key, pivot)
    ensures PartOk(Advance(b), t, pivot) && Unknown(Advance(b)) == Unknown(b) - 1
  {
  }

  /** The three balances of a step that ends in phase 1. */
  lemma Phase1Good(w: Worker, sh: Shared, w': Worker, sh': Shared, pivot: nat)
    requires WorkerShape(w) && sh.next <= |sh.source| && Act(w, sh, pivot) == (w', sh')
    requires InPhase1(w') && WorkerOk(w', pivot) && SharedOk(sh', pivot) && sh.next <= sh'.next <= |sh'.source| && sh'.source == sh.source
    requires Held(w') + Entries(sh') == Held(w) + Entries(sh)
    requires Unfetched(sh') + Unknown(w'.lt) + Unknown(w'.eq) + Unknown(w'.gt)
             <= Unfetched(sh) + Unknown(w.lt) + Unknown(w.eq) + Unknown(w.gt) - (if Rank(w'.pc) < Rank(w.pc) then 0 else 1)
    ensures Good(w, sh, pivot)
  {
    hide WorkerOk, SharedOk, Entries, Unfetched, Unknown, Act, Held;
  }

  ghost predicate PartsOk(w: Worker, pivot: nat) {
    Phase1Ok(w.lt, LT, pivot) && Phase1Ok(w.eq, EQ, pivot) && Phase1Ok(w.gt, GT, pivot)
  }

  function UnknownAll(w: Worker): (n: int) {
    Unknown(w.lt) + Unknown(w.eq) + Unknown(w.gt)
  }

  lemma LookAtLtOk(w: Worker, pivot: nat)
    requires PartsOk(w, pivot) && w.lt.pos < |Cells(w.lt)| && w.eq.pos < |Cells(w.eq)|
    ensures var w' := LookAtLt(w, pivot);
            && InPhase1(w') && WorkerOk(w', pivot) && Held(w') == Held(w)
            && UnknownAll(w') == UnknownAll(w) - if w'.pc.GtSource? then 0 else 1
  {
    hide PartOk, Pure;
    var key := Front(w.lt).key;
    if key < pivot {
      AdvancedOk(w.lt, LT, pivot);
    } else if key == pivot {
      ExchangeOk(w.lt, LT, w.eq, EQ, pivot);
    }
  }

  /** A small one in gt changes places with the large one in lt. */
  lemma SmallInGt(w: Worker, pivot: nat)
    requires PartsOk(w, pivot) && w.lt.pos < |Cells(w.lt)| && w.eq.pos < |Cells(w.eq)| && w.gt.pos < |Cells(w.gt)|
    requires Front(w.lt).key > pivot && Front(w.gt).key < pivot
    ensures var w' := LookAtGt(w, pivot);
            InPhase1(w') && WorkerOk(w', pivot) && Held(w') == Held(w) && UnknownAll(w') < UnknownAll(w)
  {
    hide PartOk, Pure, Phase1Ok, Cells, Unknown;
    var b := WithFront(w.lt, Front(w.gt));
    ExchangeOk(w.lt, LT, w.gt, GT, pivot);
    AdvancedPhase1(b, LT, pivot);
    HeldAs(w, LT, GT, EQ);
    HeldAs(LookAtGt(w, pivot), LT, GT, EQ);
  }

  lemma EqualInGt(w: Worker, pivot: nat)
    requires PartsOk(w, pivot) && w.lt.pos < |Cells(w.lt)| && w.eq.pos < |Cells(w.eq)| && w.gt.pos < |Cells(w.gt)|
    requires Front(w.lt).key > pivot && Front(w.gt).key == pivot
    ensures var w' := LookAtGt(w, pivot);
            InPhase1(w') && WorkerOk(w', pivot) && Held(w') == Held(w) && UnknownAll(w') < UnknownAll(w)
  {
    hide PartOk, Pure, Phase1Ok, Cells, Unknown;
    ExchangeOk(w.gt, GT, w.eq, EQ, pivot);
    HeldAs(w, GT, EQ, LT);
    HeldAs(LookAtGt(w, pivot), GT, EQ, LT);
  }

  lemma LargeInGt(w: Worker, pivot: nat)
    requires PartsOk(w, pivot) && w.lt.pos < |Cells(w.lt)| && w.eq.pos < |Cells(w.eq)| && w.gt.pos < |Cells(w.gt)|
    requires Front(w.lt).key > pivot && Front(w.gt).key > pivot
    ensures var w' := LookAtGt(w, pivot);
            InPhase1(w') && WorkerOk(w', pivot) && Held(w') == Held(w) && UnknownAll(w') < UnknownAll(w)
  {
    hide PartOk, Pure, Phase1Ok, Cells, Unknown;
    AdvancedPhase1(w.gt, GT, pivot);
  }

  lemma AdvancedPhase1(b: Part, t: Type, pivot: nat)
    requires Phase1Ok(b, t, pivot) && b.pos < |Cells(b)| && Right(t, Front(b).key, pivot)
    ensures Phase1Ok(Advance(b), t, pivot) && Cells(Advance(b)) == Cells(b) && Unknown(Advance(b)) == Unknown(b) - 1
  {
    hide PartOk, Pure;
    AdvancedOk(b, t, pivot);
  }

  lemma LookAtGtOk(w: Worker, pivot: nat)
    requires PartsOk(w, pivot) && w.lt.pos < |Cells(w.lt)| && w.eq.pos < |Cells(w.eq)| && w.gt.pos < |Cells(w.gt)|
    requires Front(w.lt).key > pivot
    ensures var w' := LookAtGt(w, pivot);
            InPhase1(w') && WorkerOk(w', pivot) && Held(w') == Held(w) && UnknownAll(w') < UnknownAll(w)
  {
    hide Phase1Ok, WorkerOk, Held, Unknown, LookAtGt;
    var key := Front(w.gt).key;
    if key < pivot {
      SmallInGt(w, pivot);
    } else if key == pivot {
      EqualInGt(w, pivot);
    } else {
      LargeInGt(w, pivot);
    }
  }

  lemma LtLookGood(w: Worker, sh: Shared, pivot: nat)
    requires w.pc.LtLook? && WorkerOk(w, pivot) && SharedOk(sh, pivot)
    ensures sh.next <= |sh.source| && Good(w, sh, pivot)
  {
    hide Phase1Ok, SharedOk, HasSource, Entries, Unfetched, LookAtLt, StartPartials;
    SharedNext(sh, pivot);
    HasSourceOk(w.eq, EQ, sh, pivot);
    SourcePays(w.eq, EQ, sh, pivot);
    var (eq, sh', ok) := HasSource(w.eq, EQ, sh);
    var w1 := w.(eq := eq);
    HeldBalance(w, w1, EQ, Entries(sh), Entries(sh'));
    if !ok {
      StartPartialsOk(w1, pivot);
    } else {
      LookAtLtOk(w1, pivot);
      Phase1Good(w, sh, LookAtLt(w1, pivot), sh', pivot);
    }
  }

  lemma GtLookGood(w: Worker, sh: Shared, pivot: nat)
    requires w.pc.GtLook? && WorkerOk(w, pivot) && SharedOk(sh, pivot)
    ensures sh.next <= |sh.source| && Good(w, sh, pivot)
  {
    hide Phase1Ok, SharedOk, HasSource, Entries, Unfetched, LookAtGt, StartPartials;
    SharedNext(sh, pivot);
    HasSourceOk(w.eq, EQ, sh, pivot);
    SourcePays(w.eq, EQ, sh, pivot);
    var (eq, sh', ok) := HasSource(w.eq, EQ, sh);
    var w1 := w.(eq := eq);
    HeldBalance(w, w1, EQ, Entries(sh), Entries(sh'));
    if !ok {
      StartPartialsOk(w1, pivot);
    } else {
      LookAtGtOk(w1, pivot);
      Phase1Good(w, sh, LookAtGt(w1, pivot), sh', pivot);
    }
  }

  // -------------------------------------------------------------- phase 2

  lemma Phase2Good(w: Worker, sh: Shared, w': Worker, sh': Shared, pivot: nat)
    requires WorkerShape(w) && sh.next <= |sh.source| && Act(w, sh, pivot) == (w', sh')
    requires !InPhase1(w') && WorkerOk(w', pivot) && SharedOk(sh', pivot) && sh'.next == |sh.source| == sh.next && sh'.source == sh.source
    requires Held(w') + Entries(sh') == Held(w) + Entries(sh)
    requires UnknownAll(w') <= UnknownAll(w) - if Rank(w'.pc) < Rank(w.pc) then 0 else 1
    ensures Good(w, sh, pivot)
  {
    hide WorkerOk, SharedOk, Entries, Unfetched, Unknown, Act, Held;
    UnfetchedSame(sh, sh');
  }

  lemma FinishSkip(w: Worker, sh: Shared, pivot: nat)
    requires w.pc.Finish? && WorkerOk(w, pivot) && SharedOk(sh, pivot) && sh.next == |sh.source|
    requires var b := Get(w, w.pc.t); b.blk.None? || b.partial || b.pos >= |Cells(b)|
    ensures Good(w, sh, pivot)
  {
    hide Pure, SharedOk, Entries;
    Phase2Good(w, sh, w.(pc := AfterFinish(w.pc.t)), sh, pivot);
  }

  /** Parts t and u changed. */
  lemma TwoPartsOk(w: Worker, t: Type, from: Part, u: Type, b: Part, pivot: nat)
    requires w.pc == Finish(t) && WorkerOk(w, pivot) && t != u && PartOk(from, t, pivot) && PartOk(b, u, pivot)
    requires from.blk.Some? && b.blk.Some? && Unknown(b) <= Unknown(Get(w, u))
    ensures WorkerOk(Set(Set(w, u, b), t, from), pivot)
    ensures UnknownAll(Set(Set(w, u, b), t, from)) - Unknown(b) - Unknown(from) == UnknownAll(w) - Unknown(Get(w, u)) - Unknown(Get(w, t))
  {
    hide Pure;
  }

  /** Held in any order of the three parts. */
  lemma HeldAs(w: Worker, t: Type, u: Type, v: Type)
    requires t != u && u != v && t != v
    ensures Held(w) == multiset(Cells(Get(w, t))) + multiset(Cells(Get(w, u))) + multiset(Cells(Get(w, v)))
  {
    var x, y, z := multiset(Cells(w.lt)), multiset(Cells(w.eq)), multiset(Cells(w.gt));
    assert x + y + z == x + z + y && x + y + z == y + x + z;
    assert x + y + z == y + z + x && x + y + z == z + x + y && x + y + z == z + y + x;
  }

  lemma TwoPartsHeld(w: Worker, t: Type, from: Part, u: Type, b: Part, s: multiset<Entry>, s': multiset<Entry>)
    requires t != u
    requires multiset(Cells(b)) + multiset(Cells(from)) + s' == multiset(Cells(Get(w, u))) + multiset(Cells(Get(w, t))) + s
    ensures Held(Set(Set(w, u, b), t, from)) + s' == Held(w) + s
  {
    hide Held;
    var v: Type :| v != t && v != u;
    var w' := Set(Set(w, u, b), t, from);
    HeldAs(w, u, t, v);
    HeldAs(w', u, t, v);
    Rebalance(multiset(Cells(Get(w, u))) + multiset(Cells(Get(w, t))), multiset(Cells(b)) + multiset(Cells(from)), multiset(Cells(Get(w, v))), s, s');
  }

  lemma Rebalance(x: multiset<Entry>, x': multiset<Entry>, z: multiset<Entry>, s: multiset<Entry>, s': multiset<Entry>)
    requires x' + s' == x + s
    ensures (x' + z) + s' == (x + z) + s
  {
    assert (x' + z) + s' == (x' + s') + z;
    assert (x + z) + s == (x + s) + z;
  }

  lemma FinishMove(w: Worker, sh: Shared, pivot: nat)
    requires w.pc.Finish? && WorkerOk(w, pivot) && SharedOk(sh, pivot) && sh.next == |sh.source|
    requires var b := Get(w, w.pc.t); b.blk.Some? && !b.partial && b.pos < |Cells(b)|
    ensures Good(w, sh, pivot)
  {
    hide Pure, SharedOk, Entries, SwapOrMove, PartOk, Right;
    var t := w.pc.t;
    var b := Get(w, t);
    var u := TypeOf(Front(b).key, pivot);
    if u == t {
      AdvancedOk(b, t, pivot);
      AdvanceFinish(w, pivot);
      Phase2Good(w, sh, Set(w, t, Advance(b)), sh, pivot);
    } else {
      SwapOrMoveOk(Get(w, u), u, b, t, sh, pivot);
      var (b', from', sh') := SwapOrMove(Get(w, u), u, b, sh);
      TwoPartsOk(w, t, from', u, b', pivot);
      TwoPartsHeld(w, t, from', u, b', Entries(sh), Entries(sh'));
      Phase2Good(w, sh, Set(Set(w, u, b'), t, from'), sh', pivot);
    }
  }

  lemma AdvanceFinish(w: Worker, pivot: nat)
    requires w.pc.Finish? && WorkerOk(w, pivot) && PartOk(Advance(Get(w, w.pc.t)), w.pc.t, pivot) && Get(w, w.pc.t).blk.Some?
    ensures var w' := Set(w, w.pc.t, Advance(Get(w, w.pc.t)));
            WorkerOk(w', pivot) && Held(w') == Held(w) && UnknownAll(w') == UnknownAll(w) - 1
  {
    hide Pure, PartOk;
    var t := w.pc.t;
    var w' := Set(w, t, Advance(Get(w, t)));
    forall u | u != t ensures Get(w', u) == Get(w, u) {
    }
    assert Cells(Advance(Get(w, t))) == Cells(Get(w, t));
  }

  lemma OutputGood(w: Worker, sh: Shared, pivot: nat)
    requires w.pc.Output? && WorkerOk(w, pivot) && SharedOk(sh, pivot) && sh.next == |sh.source|
    ensures Good(w, sh, pivot)
  {
    hide Pure, SharedOk, Entries, Push, WorkerOk, PartOk, Held, Released, Unknown, Unfetched;
    var t := w.pc.t;
    var b := Get(w, t);
    OutputPart(w, pivot);
    OutputWorker(w, pivot);
    var sh' := if b.blk.Some? && b.blk.value != [] then Push(sh, t, b.blk.value) else sh;
    if b.blk.Some? && b.blk.value != [] {
      PushOk(sh, t, b.blk.value, pivot);
    }
    SharedNext(sh, pivot);
    HeldBalance(w, Released(w, t), t, Entries(sh), Entries(sh'));
    Phase2Good(w, sh, Released(w, t), sh', pivot);
  }

  lemma OutputPart(w: Worker, pivot: nat)
    requires w.pc.Output? && WorkerOk(w, pivot)
    ensures WorkerShape(w) && Pure(w.pc.t, Cells(Get(w, w.pc.t)), pivot) && |Cells(Get(w, w.pc.t))| <= BLOCK_SIZE
  {
    var b := Get(w, w.pc.t);
    assert Cells(b)[..b.pos] == Cells(b);
  }

  lemma OutputWorker(w: Worker, pivot: nat)
    requires w.pc.Output? && WorkerOk(w, pivot)
    ensures var w' := Released(w, w.pc.t);
            && WorkerOk(w', pivot) && UnknownAll(w') == UnknownAll(w) && Rank(w'.pc) < Rank(w.pc) && !InPhase1(w')
            && Cells(Get(w', w.pc.t)) == [] && forall u | u != w.pc.t :: Get(w', u) == Get(w, u)
  {
  }

  // ---------------------------------------------------------- all workers

  lemma ActGood(w: Worker, sh: Shared, pivot: nat)
    requires WorkerOk(w, pivot) && SharedOk(sh, pivot) && !w.pc.Done? && (InPhase1(w) || sh.next == |sh.source|)
    ensures sh.next <= |sh.source| && Good(w, sh, pivot)
  {
    hide PartOk, Pure, Good, SharedOk, PartInPhase2, Phase1Ok;
    match w.pc
    case LtSource => LtSourceGood(w, sh, pivot);
    case LtLook => LtLookGood(w, sh, pivot);
    case GtSource => GtSourceGood(w, sh, pivot);
    case GtLook => GtLookGood(w, sh, pivot);
    case Output(t) => OutputGood(w, sh, pivot);
    case Finish(t) =>
      var b := Get(w, t);
      if b.blk.None? || b.partial || b.pos >= |Cells(b)| {
        FinishSkip(w, sh, pivot);
      } else {
        FinishMove(w, sh, pivot);
      }
  }

  ghost predicate AllOk(ws: seq<Worker>, sh: Shared, pivot: nat) {
    SharedOk(sh, pivot) && forall p | 0 <= p < |ws| :: WorkerOk(ws[p], pivot) && (InPhase1(ws[p]) || sh.next == |sh.source|)
  }

  ghost function HeldAll(ws: seq<Worker>): (m: multiset<Entry>) {
    if ws == [] then multiset{} else HeldAll(ws[..|ws| - 1]) + Held(ws[|ws| - 1])
  }

  ghost function EffortAll(ws: seq<Worker>): (e: int) {
    if ws == [] then 0 else EffortAll(ws[..|ws| - 1]) + Effort(ws[|ws| - 1])
  }

  lemma {:induction false} OneActed(ws: seq<Worker>, p: nat, w: Worker)
    requires p < |ws|
    ensures HeldAll(ws[p := w]) + Held(ws[p]) == HeldAll(ws) + Held(w)
    ensures EffortAll(ws[p := w]) - Effort(w) == EffortAll(ws) - Effort(ws[p])
  {
    hide Held, Effort;
    var k := |ws| - 1;
    if p < k {
      OneActed(ws[..k], p, w);
      assert ws[p := w][..k] == ws[..k][p := w];
      Rebalance(HeldAll(ws[..k]), HeldAll(ws[..k][p := w]), Held(ws[k]), Held(w), Held(ws[p]));
    } else {
      assert ws[p := w][..k] == ws[..k];
    }
  }

  lemma {:induction false} EffortPositive(ws: seq<Worker>, pivot: nat)
    requires forall p | 0 <= p < |ws| :: WorkerOk(ws[p], pivot)
    ensures EffortAll(ws) >= 0
  {
    hide Pure;
    if ws != [] {
      EffortPositive(ws[..|ws| - 1], pivot);
      WorkerEffort(ws[|ws| - 1], pivot);
    }
  }

  lemma WorkerEffort(w: Worker, pivot: nat)
    requires WorkerOk(w, pivot)
    ensures Effort(w) >= 0
  {
    hide Pure;
  }

  /** One worker acts, the others stay where they are. */
  lemma AllActed(ws: seq<Worker>, sh: Shared, pivot: nat, p: nat)
    requires AllOk(ws, sh, pivot) && p < |ws| && !ws[p].pc.Done?
    ensures sh.next <= |sh.source| && WorkerShape(ws[p])
    ensures var (w', sh') := Act(ws[p], sh, pivot); var ws' := ws[p := w'];
            && AllOk(ws', sh', pivot) && sh'.source == sh.source
            && HeldAll(ws') + Entries(sh') == HeldAll(ws) + Entries(sh)
            && 11 * Unfetched(sh') + EffortAll(ws') < 11 * Unfetched(sh) + EffortAll(ws)
  {
    hide WorkerOk, SharedOk, Entries, Unfetched, Effort, Held, Act;
    SharedNext(sh, pivot);
    WorkerHasShape(ws[p], pivot);
    ActGood(ws[p], sh, pivot);
    var (w', sh') := Act(ws[p], sh, pivot);
    SharedNext(sh', pivot);
    OneActed(ws, p, w');
    AllBalance(HeldAll(ws), HeldAll(ws[p := w']), Held(ws[p]), Held(w'), Entries(sh), Entries(sh'));
  }

  lemma WorkerHasShape(w: Worker, pivot: nat)
    requires WorkerOk(w, pivot)
    ensures WorkerShape(w)
  {
  }

  lemma AllBalance(a: multiset<Entry>, a': multiset<Entry>, h: multiset<Entry>, h': multiset<Entry>, s: multiset<Entry>, s': multiset<Entry>)
    requires a' + h == a + h' && h' + s' == h + s
    ensures a' + s' == a + s
  {
    assert (a' + s') + h == (a' + h) + s';
    assert (a + h') + s' == a + (h' + s');
    assert a + (h + s) == (a + s) + h;
    Cancel(a' + s', a + s, h);
  }

  /** The pushed blocks together are exactly the input, every block is pure and not
      empty, and the counters are exact. */
  ghost predicate Partitioned(sh: Shared, source: seq<Block>, pivot: nat) {
    && QueueOk(sh.lt, LT, pivot) && QueueOk(sh.eq, EQ, pivot) && QueueOk(sh.gt, GT, pivot)
    && Flat(sh.lt) + Flat(sh.eq) + Flat(sh.gt) == Flat(source)
    && sh.countLt == Total(sh.lt) && sh.countEq == Total(sh.eq)
    && Total(sh.lt) + Total(sh.eq) + Total(sh.gt) == Total(source)
  }

  lemma {:induction false} NobodyHolds(ws: seq<Worker>, pivot: nat)
    requires forall p | 0 <= p < |ws| :: WorkerOk(ws[p], pivot) && ws[p].pc.Done?
    ensures HeldAll(ws) == multiset{}
  {
    if ws != [] {
      NobodyHolds(ws[..|ws| - 1], pivot);
      DoneHolds(ws[|ws| - 1], pivot);
    }
  }

  lemma DoneHolds(w: Worker, pivot: nat)
    requires WorkerOk(w, pivot) && w.pc.Done?
    ensures Held(w) == multiset{}
  {
  }

  lemma {:induction false} FlatSize(q: seq<Block>)
    ensures |Flat(q)| == Total(q)
  {
    if q != [] {
      FlatSize(q[..|q| - 1]);
    }
  }

  lemma AllDone(ws: seq<Worker>, sh: Shared, source: seq<Block>, pivot: nat)
    requires AllOk(ws, sh, pivot) && ws != [] && sh.source == source && forall p | 0 <= p < |ws| :: ws[p].pc.Done?
    requires sh.next <= |sh.source| && HeldAll(ws) + Entries(sh) == Flat(source)
    ensures Partitioned(sh, source, pivot)
  {
    hide WorkerOk, QueueOk, HeldAll;
    NobodyHolds(ws, pivot);
    assert ws[0].pc.Done?;
    assert source[sh.next..] == [];
    FlatSize(sh.lt);
    FlatSize(sh.eq);
    FlatSize(sh.gt);
    FlatSize(source);
  }

  lemma {:induction false} StartOk(ws: seq<Worker>, pivot: nat)
    requires forall p | 0 <= p < |ws| :: ws[p] == NewWorker()
    ensures (forall p | 0 <= p < |ws| :: WorkerOk(ws[p], pivot)) && HeldAll(ws) == multiset{}
  {
    if ws != [] {
      StartOk(ws[..|ws| - 1], pivot);
      assert WorkerOk(ws[|ws| - 1], pivot);
    }
  }

  function NewWorker(): (w: Worker) {
    Worker(Part(0, None, false), Part(0, None, false), Part(0, None, false), LtSource)
  }

  // ------------------------------------------------------- all interleavings

  /** All PartitionJobs of a ParallelJob, and what they share. */
  datatype Crew = Crew(ws: seq<Worker>, sh: Shared)

  function NewCrew(source: seq<Block>, procs: nat): (c: Crew) {
    Crew(seq(procs, p => NewWorker()), Shared(source, 0, [], [], [], 0, 0))
  }

  ghost predicate AllOver(c: Crew) {
    forall p | 0 <= p < |c.ws| :: c.ws[p].pc.Done?
  }

  /** Job p, which is not done, takes its next action. */
  ghost predicate Takes(c: Crew, c': Crew, p: nat, pivot: nat) {
    && p < |c.ws| && !c.ws[p].pc.Done? && c.sh.next <= |c.sh.source| && WorkerShape(c.ws[p])
    && var (w, sh) := Act(c.ws[p], c.sh, pivot); c' == Crew(c.ws[p := w], sh)
  }

  ghost predicate Next(c: Crew, c': Crew, pivot: nat) {
    exists p: nat :: Takes(c, c', p, pivot)
  }

  ghost predicate IsRun(r: seq<Crew>, source: seq<Block>, pivot: nat, procs: nat) {
    r != [] && r[0] == NewCrew(source, procs) && forall i: nat | i + 1 < |r| :: Next(r[i], r[i + 1], pivot)
  }

  ghost predicate Filled(source: seq<Block>) {
    forall i | 0 <= i < |source| :: 0 < |source[i]| <= BLOCK_SIZE
  }

  ghost predicate CrewOk(c: Crew, source: seq<Block>, pivot: nat) {
    && AllOk(c.ws, c.sh, pivot) && c.sh.source == source && c.sh.next <= |source|
    && HeldAll(c.ws) + Entries(c.sh) == Flat(source)
  }

  ghost function WorkLeft(c: Crew): (n: int)
    requires c.sh.next <= |c.sh.source|
  {
    11 * Unfetched(c.sh) + EffortAll(c.ws)
  }

  lemma StartCrew(source: seq<Block>, pivot: nat, procs: nat)
    requires Filled(source)
    ensures CrewOk(NewCrew(source, procs), source, pivot)
  {
    hide WorkerOk, SharedOk, Entries, HeldAll;
    StartOk(NewCrew(source, procs).ws, pivot);
    SharedStart(NewCrew(source, procs).sh, pivot);
  }

  lemma NextCrew(c: Crew, c': Crew, source: seq<Block>, pivot: nat)
    requires CrewOk(c, source, pivot) && Next(c, c', pivot)
    ensures CrewOk(c', source, pivot) && |c'.ws| == |c.ws| && WorkLeft(c') < WorkLeft(c)
  {
    hide WorkerOk, SharedOk, Act, Entries, Unfetched, HeldAll, EffortAll, AllOk;
    var p: nat :| Takes(c, c', p, pivot);
    AllActed(c.ws, c.sh, pivot, p);
    AllOkShared(c'.ws, c'.sh, pivot);
    SharedNext(c'.sh, pivot);
  }

  lemma AllOkShared(ws: seq<Worker>, sh: Shared, pivot: nat)
    requires AllOk(ws, sh, pivot)
    ensures SharedOk(sh, pivot)
  {
    hide SharedOk, WorkerOk;
  }

  /** At any time of any run: every job that is not done can act, the work that is left
      has been lowered by every action, and with no job left the result is right. */
  lemma {:induction false} EveryRun(r: seq<Crew>, source: seq<Block>, pivot: nat, procs: nat, i: nat)
    requires IsRun(r, source, pivot, procs) && Filled(source) && i < |r| && procs > 0
    ensures CrewOk(r[i], source, pivot) && |r[i].ws| == procs && i + WorkLeft(r[i]) <= WorkLeft(NewCrew(source, procs))
    ensures forall p: nat | p < procs && !r[i].ws[p].pc.Done? :: exists c :: Takes(r[i], c, p, pivot)
    ensures AllOver(r[i]) ==> Partitioned(r[i].sh, source, pivot)
  {
    hide CrewOk, WorkLeft, Act, Next, Partitioned;
    if i == 0 {
      StartCrew(source, pivot, procs);
    } else {
      EveryRun(r, source, pivot, procs, i - 1);
      assert Next(r[i - 1], r[(i - 1) + 1], pivot);
      NextCrew(r[i - 1], r[i], source, pivot);
    }
    forall p: nat | p < procs && !r[i].ws[p].pc.Done? ensures exists c :: Takes(r[i], c, p, pivot) {
      var c := JobCanAct(r[i], source, pivot, p);
    }
    if AllOver(r[i]) { CrewDone(r[i], source, pivot); }
  }

  lemma JobCanAct(c: Crew, source: seq<Block>, pivot: nat, p: nat) returns (c': Crew)
    requires CrewOk(c, source, pivot) && p < |c.ws| && !c.ws[p].pc.Done?
    ensures Takes(c, c', p, pivot)
  {
    hide SharedOk, WorkerOk, Act, Entries, HeldAll, WorkerShape;
    WorkerHasShape(c.ws[p], pivot);
    var (w, sh) := Act(c.ws[p], c.sh, pivot);
    c' := Crew(c.ws[p := w], sh);
  }

  lemma CrewDone(c: Crew, source: seq<Block>, pivot: nat)
    requires CrewOk(c, source, pivot) && AllOver(c) && c.ws != []
    ensures Partitioned(c.sh, source, pivot)
  {
    hide Partitioned, AllOk, Entries, HeldAll;
    AllDone(c.ws, c.sh, source, pivot);
  }

  lemma RunMore(r: seq<Crew>, c: Crew, source: seq<Block>, pivot: nat, procs: nat)
    requires IsRun(r, source, pivot, procs) && Next(r[|r| - 1], c, pivot)
    ensures IsRun(r + [c], source, pivot, procs)
  {
    hide Next;
    var r' := r + [c];
    forall i: nat | i + 1 < |r'| ensures Next(r'[i], r'[i + 1], pivot) {
      if i + 1 < |r| { assert Next(r[i], r[i + 1], pivot); }
    }
  }

  /** All PartitionJobs of a ParallelJob, interleaved at will: each round, any job that is
      not done takes its next action. */
  method RunPartition(source: seq<Block>, pivot: nat, procs: nat) returns (sh: Shared, ghost r: seq<Crew>)
    requires procs > 0 && forall i | 0 <= i < |source| :: 0 < |source[i]| <= BLOCK_SIZE
    ensures IsRun(r, source, pivot, procs) && AllOver(r[|r| - 1]) && sh == r[|r| - 1].sh
    ensures Partitioned(sh, source, pivot)
  {
    hide Act, Partitioned, CrewOk, WorkLeft, Next, AllOver, Takes;
    var c := NewCrew(source, procs);
    r := [c];
    EveryRun(r, source, pivot, procs, 0);
    CrewFacts(c, source, pivot);
    while exists p :: 0 <= p < |c.ws| && !c.ws[p].pc.Done?
      invariant IsRun(r, source, pivot, procs) && c == r[|r| - 1] && CrewOk(c, source, pivot) && |c.ws| == procs
      invariant c.sh.next <= |c.sh.source| && WorkLeft(c) >= 0
      decreases WorkLeft(c)
    {
      var p: nat :| p < |c.ws| && !c.ws[p].pc.Done?;
      CanTake(c, source, pivot, p);
      var (w, sh') := Act(c.ws[p], c.sh, pivot);
      ghost var before := c;
      c := Crew(c.ws[p := w], sh');
      TookStep(before, c, p, pivot);
      NextCrew(before, c, source, pivot);
      RunMore(r, c, source, pivot, procs);
      CrewFacts(c, source, pivot);
      r := r + [c];
    }
    sh := c.sh;
    OverAll(c);
    EveryRun(r, source, pivot, procs, |r| - 1);
  }

  lemma OverAll(c: Crew)
    requires forall p | 0 <= p < |c.ws| :: c.ws[p].pc.Done?
    ensures AllOver(c)
  {
  }

  lemma CrewFacts(c: Crew, source: seq<Block>, pivot: nat)
    requires CrewOk(c, source, pivot)
    ensures c.sh.next <= |c.sh.source| && WorkLeft(c) >= 0
  {
    hide SharedOk, WorkerOk, Entries, HeldAll;
    EffortPositive(c.ws, pivot);
  }

  lemma CanTake(c: Crew, source: seq<Block>, pivot: nat, p: nat)
    requires CrewOk(c, source, pivot) && p < |c.ws|
    ensures c.sh.next <= |c.sh.source| && WorkerShape(c.ws[p])
  {
    hide SharedOk, WorkerOk, Entries, HeldAll, WorkerShape;
    WorkerHasShape(c.ws[p], pivot);
  }

  lemma TookStep(c: Crew, c': Crew, p: nat, pivot: nat)
    requires p < |c.ws| && !c.ws[p].pc.Done? && c.sh.next <= |c.sh.source| && WorkerShape(c.ws[p])
    requires var (w, sh) := Act(c.ws[p], c.sh, pivot); c' == Crew(c.ws[p := w], sh)
    ensures Next(c, c', pivot)
  {
    hide Act, WorkerShape;
    assert Takes(c, c', p, pivot);
  }

  lemma SharedStart(sh: Shared, pivot: nat)
    requires sh == Shared(sh.source, 0, [], [], [], 0, 0) && forall i | 0 <= i < |sh.source| :: 0 < |sh.source[i]| <= BLOCK_SIZE
    ensures SharedOk(sh, pivot) && Entries(sh) == Flat(sh.source)
  {
    assert sh.source[0..] == sh.source;
  }

  // -------------------------------------------------------- block sources

  function Keyed(x: Str, depth: nat): (e: Entry) {
    Entry(Partition.K(x, depth), x)
  }

  function KeyedAll(s: seq<Str>, depth: nat): (b: Block)
    ensures |b| == |s| && forall i | 0 <= i < |s| :: b[i] == Keyed(s[i], depth)
  {
    seq(|s|, i requires 0 <= i < |s| => Keyed(s[i], depth))
  }

  /** The blocks that BlockSourceInput hands out. */
  ghost function InputBlocks(s: seq<Str>, depth: nat): (q: seq<Block>)
    decreases |s|
  {
    if s == [] then []
    else var fill := if |s| < BLOCK_SIZE then |s| else BLOCK_SIZE;
      [KeyedAll(s[..fill], depth)] + InputBlocks(s[fill..], depth)
  }

  /** They are not empty, fit, and hold every input string exactly once. */
  lemma {:induction false} InputBlocksExact(s: seq<Str>, depth: nat)
    ensures forall i | 0 <= i < |InputBlocks(s, depth)| :: 0 < |InputBlocks(s, depth)[i]| <= BLOCK_SIZE
    ensures Flat(InputBlocks(s, depth)) == multiset(KeyedAll(s, depth))
    decreases |s|
  {
    hide Partition.K, Flat, Keyed, KeyedAll, InputBlocks;
    if s == [] {
      NoBlocks(depth);
    } else {
      var fill := FirstBlock(s, depth);
      InputBlocksExact(s[fill..], depth);
      BlockBefore(KeyedAll(s[..fill], depth), InputBlocks(s[fill..], depth));
      KeyedSplit(s, fill, depth);
    }
  }

  /** block_count is the number of blocks. */
  lemma {:induction false} InputBlockCount(s: seq<Str>, depth: nat)
    ensures |InputBlocks(s, depth)| == (|s| + BLOCK_SIZE - 1) / BLOCK_SIZE
    decreases |s|
  {
    if s != [] {
      var fill := if |s| < BLOCK_SIZE then |s| else BLOCK_SIZE;
      InputBlockCount(s[fill..], depth);
      CeilStep(|s|);
    }
  }

  lemma NoBlocks(depth: nat)
    ensures InputBlocks([], depth) == [] && Flat([]) == multiset{} && KeyedAll([], depth) == []
  {
  }

  lemma FirstBlock(s: seq<Str>, depth: nat) returns (fill: nat)
    requires s != []
    ensures 0 < fill <= |s| && fill <= BLOCK_SIZE && |KeyedAll(s[..fill], depth)| == fill
    ensures InputBlocks(s, depth) == [KeyedAll(s[..fill], depth)] + InputBlocks(s[fill..], depth)
  {
    hide Partition.K, Keyed;
    fill := if |s| < BLOCK_SIZE then |s| else BLOCK_SIZE;
  }

  lemma BlockBefore(b: Block, q: seq<Block>)
    ensures Flat([b] + q) == multiset(b) + Flat(q)
  {
    FlatHead([b] + q);
    assert ([b] + q)[1..] == q;
  }

  lemma KeyedSplit(s: seq<Str>, k: nat, depth: nat)
    requires k <= |s|
    ensures KeyedAll(s, depth) == KeyedAll(s[..k], depth) + KeyedAll(s[k..], depth)
  {
    hide Partition.K;
  }

  lemma CeilStep(n: nat)
    requires n > 0
    ensures (n + BLOCK_SIZE - 1) / BLOCK_SIZE == 1 + if n < BLOCK_SIZE then 0 else (n - BLOCK_SIZE + BLOCK_SIZE - 1) / BLOCK_SIZE
  {
  }

  /** partition_finished() sorts the equal strings deeper by the size of the key
      without looking at the pivot. That is right exactly if the pivot has no
      terminator. */
  lemma EqualsGoDeeper(s: seq<Str>, depth: nat, pivot: nat)
    requires s != [] && StableSort.SharePrefix(s, depth) && forall x | x in s :: Partition.K(x, depth) == pivot
    ensures StableSort.SharePrefix(s, depth + 8) <==> pivot % 256 != 0
  {
    hide Partition.K;
    if pivot % 256 != 0 {
      CachedInsertion.SameKeysDeeper(s, depth, pivot);
    } else {
      assert s[0] in s && Agree(s[0], s[0], depth);
      CachedInsertion.KeyTextLength(s[0], depth);
      LowKeyDepth(pivot);
      assert !Agree(s[0], s[0], depth + 8);
    }
  }

  /** Two empty strings: their key is 0, and they have no eight characters to share. */
  lemma EmptyStringsDoNot(a: int, b: int)
    ensures var s := [Str(a, []), Str(b, [])];
            StableSort.SharePrefix(s, 0) && (forall x | x in s :: Partition.K(x, 0) == 0) && !StableSort.SharePrefix(s, 8)
  {
    var s := [Str(a, []), Str(b, [])];
    forall x | x in s ensures Partition.K(x, 0) == 0 {
      EmptyKey(x, 8);
    }
    EqualsGoDeeper(s, 0, 0);
  }

  lemma LowKeyDepth(key: nat)
    requires key % 256 == 0
    ensures KeyDepth(key, 8) < 8
  {
  }
}
