/**
 The explicit producer: its circle of blocks, the circular block index that
 consumers search, its doubling, and dequeueing by claimed index.

 The producer is one thread; there are any number of consumers. One step is one
 access to memory that another thread may also access; what the producer does to
 its private fields is merged into the neighbouring step. Claiming an index
 range is a single step here; module ExplicitQueue puts the claim protocol in its
 place. The elements themselves are added in module ExplicitElements. Indices are
 unbounded; module Wrap relates them to machine words.

 `hist`, `done`, `holder`, the `origin` and `top` of a header and the `k` of a
 consumer are history variables: no step lets them decide what happens to the
 other fields.
 */
module ExplicitIndex {
  import opened Common
  import opened Modular

  type Tid = nat
  type Block = nat

  /**
   A block index header. `front` is the slot of the newest entry (-1 while there
   is none). History: `origin` is the block number in slot 0 and `top` the block
   number in slot `front`.
   */
  datatype Header = Header(size: nat, front: int, base: seq<nat>, block: seq<Block>, origin: nat, top: int)

  datatype Producer =
    | Ready
    | CheckEmpty(j: nat)
    | LoadHead
    | Grow
    | Requisition
    | StoreBase
    | StoreBlock
    | StoreFront
    | Construct
    | StoreTail

  /**
   A consumer has claimed indices up to `stop`. It moves elements `from`, ... out of
   a block in `TakeElement`, up to i so far, and then sets their flags from the
   last one down in `SetEmpty`, those of [i, end) so far.
   */
  datatype Consumer =
    | Idle
    | LoadIndex(i: nat, stop: nat)
    | LoadFront(i: nat, stop: nat, h: nat)
    | LoadBase(i: nat, stop: nat, h: nat, f: nat, k: int)
    | LoadBlock(i: nat, stop: nat, h: nat, pos: nat)
    | TakeElement(from: nat, i: nat, stop: nat, h: nat, pos: nat, blk: Block)
    | SetEmpty(from: nat, i: nat, end: nat, stop: nat, h: nat, pos: nat, blk: Block)

  datatype State = State(
    // shared
    headers: seq<Header>,
    cur: int,
    tail: nat,
    head: nat,
    flags: set<(Block, nat)>,
    // producer only
    next: map<Block, Block>,
    tailBlock: Option<Block>,
    slotsUsed: nat,
    size: nat,
    front: nat,
    limit: Option<nat>,
    prod: Producer,
    cons: seq<Consumer>,
    // history
    hist: seq<Block>,
    done: set<nat>,
    holder: seq<Tid>)

  // ----------------------------------------------------------- vocabulary

  /** Which flag of its block belongs to index i. */
  function Flag(i: nat): nat {
    BLOCK_SIZE - 1 - i % BLOCK_SIZE
  }

  /** The slot in which header h keeps block number x. */
  function Pos(h: Header, x: int): nat
    requires h.size > 0
  {
    Mod(x - h.origin, h.size)
  }

  ghost predicate SlotOk(headers: seq<Header>, h: nat, pos: nat) {
    h < |headers| && pos < headers[h].size
  }

  /** A consumer's registers name an existing header and a slot of it. */
  ghost predicate RegistersOk(headers: seq<Header>, cur: int, c: Consumer) {
    match c
    case Idle => true
    case LoadIndex(_, _) => cur >= 0
    case LoadFront(_, _, h) => h < |headers|
    case LoadBase(_, _, h, f, _) => SlotOk(headers, h, f)
    case LoadBlock(_, _, h, pos) => SlotOk(headers, h, pos)
    case TakeElement(_, _, _, h, pos, _) => SlotOk(headers, h, pos)
    case SetEmpty(_, _, _, _, h, pos, _) => SlotOk(headers, h, pos)
  }

  ghost predicate HeaderShapes(headers: seq<Header>) {
    forall h :: 0 <= h < |headers| ==>
      headers[h].size > 0 && |headers[h].base| == |headers[h].block| == headers[h].size
  }

  ghost predicate AllRegistersOk(headers: seq<Header>, cur: int, cons: seq<Consumer>) {
    forall t :: 0 <= t < |cons| ==> RegistersOk(headers, cur, cons[t])
  }

  ghost predicate Closed(next: map<Block, Block>) {
    forall b :: b in next ==> next[b] in next
  }

  /** Registers are in range, so that every step is defined. */
  ghost predicate Shaped(s: State) {
    && -1 <= s.cur < |s.headers| && s.size > 0
    && HeaderShapes(s.headers) && AllRegistersOk(s.headers, s.cur, s.cons) && Closed(s.next)
    && (s.cur >= 0 ==> s.front < s.size == s.headers[s.cur].size)
    && (s.tailBlock.Some? ==> s.tailBlock.value in s.next)
    && (s.prod.CheckEmpty? ==> s.tailBlock.Some? && s.prod.j < BLOCK_SIZE)
    && (s.prod.StoreBase? || s.prod.StoreBlock? || s.prod.StoreFront? ==> s.cur >= 0 && s.tailBlock.Some?)
    && (s.prod.Construct? ==> s.tailBlock.Some?)
  }

  // ------------------------------------------------------- producer steps

  ghost function Enqueue(s: State): State {
    s.(prod := if s.tail % BLOCK_SIZE != 0 then Construct
               else if s.tailBlock.Some? then CheckEmpty(0) else LoadHead)
  }

  /** The entries of a doubled index: the old ones, oldest first. */
  ghost function Copied<T>(entries: seq<T>, start: int, used: nat, size: nat, filler: T): seq<T>
    requires used > 0 ==> |entries| > 0
    requires used <= size
  {
    seq(size, j requires 0 <= j < size => if j < used then entries[Mod(start + j, |entries|)] else filler)
  }

  ghost function Doubled(s: State): Header
    requires Shaped(s) && (s.slotsUsed > 0 ==> s.cur >= 0) && s.slotsUsed <= s.size
  {
    var used := s.slotsUsed;
    var base := if used > 0 then s.headers[s.cur].base else [];
    var block := if used > 0 then s.headers[s.cur].block else [];
    Header(2 * s.size, used - 1,
           Copied(base, s.front - used, used, 2 * s.size, 0),
           Copied(block, s.front - used, used, 2 * s.size, 0),
           if used <= |s.hist| then |s.hist| - used else 0, |s.hist| - 1)
  }

  /** The flags after `reset_empty` on block b. */
  ghost function Cleared(flags: set<(Block, nat)>, b: Block): set<(Block, nat)> {
    set p | p in flags && p.0 != b
  }

  /** All flags of the block ahead are set: it becomes the newest block again. */
  ghost function Reused(s: State, b: Block): State {
    s.(tailBlock := Some(b), flags := Cleared(s.flags, b), prod := StoreBase, hist := s.hist + [b])
  }

  /** A new block is linked into the circle behind the newest one. */
  ghost function Linked(s: State, b: Block): State
    requires s.tailBlock.Some? ==> s.tailBlock.value in s.next
  {
    var after := if s.tailBlock.Some? then s.next[s.tailBlock.value] else b;
    var linked := if s.tailBlock.Some? then s.next[s.tailBlock.value := b] else s.next;
    s.(next := linked[b := after], tailBlock := Some(b), flags := Cleared(s.flags, b),
       slotsUsed := s.slotsUsed + 1, prod := StoreBase, hist := s.hist + [b])
  }

  ghost function Grown(s: State): State
    requires Shaped(s) && (s.slotsUsed > 0 ==> s.cur >= 0) && s.slotsUsed <= s.size
  {
    s.(headers := s.headers + [Doubled(s)], cur := |s.headers|,
       size := 2 * s.size, front := s.slotsUsed, prod := Requisition)
  }

  /** The producer writes header hd in place of the current one. */
  ghost function Written(s: State, hd: Header, p: Producer): State
    requires 0 <= s.cur < |s.headers|
  {
    s.(headers := s.headers[s.cur := hd], prod := p)
  }

  /**
   What the producer's next step may do. `ok` says whether memory allocation
   succeeds; `supplied` is the block the pool gives.
   */
  ghost function Produce(s: State, ok: bool, supplied: Block): State
    requires Shaped(s) && (s.prod.Grow? ==> (s.slotsUsed > 0 ==> s.cur >= 0) && s.slotsUsed <= s.size)
  {
    match s.prod
    case Ready => s
    case CheckEmpty(j) =>
      var b := s.next[s.tailBlock.value];
      if (b, j) !in s.flags then s.(prod := LoadHead)
      else if j + 1 < BLOCK_SIZE then s.(prod := CheckEmpty(j + 1))
      else Reused(s, b)
    case LoadHead => s.(prod := AfterHead(s))
    case Grow => if ok then Grown(s) else s.(prod := Ready)
    case Requisition => if ok then Linked(s, supplied) else s.(prod := Ready)
    case StoreBase =>
      var h := s.headers[s.cur];
      Written(s, h.(base := h.base[s.front := s.tail]), StoreBlock)
    case StoreBlock =>
      var h := s.headers[s.cur];
      Written(s, h.(block := h.block[s.front := s.tailBlock.value]), StoreFront)
    case StoreFront =>
      Written(s, s.headers[s.cur].(front := s.front, top := |s.hist| - 1), Construct).(front := Mod(s.front + 1, s.size))
    case Construct => s.(prod := StoreTail)
    case StoreTail => s.(tail := s.tail + 1, prod := Ready)
  }

  /** What the producer does after loading the head index: give up when there is not enough leeway. */
  ghost function AfterHead(s: State): Producer {
    if !(s.head < s.tail + BLOCK_SIZE)
       || (s.limit.Some? && (s.limit.value == 0 || s.limit.value - BLOCK_SIZE < s.tail - s.head))
    then Ready
    else if s.cur < 0 || s.slotsUsed == s.size then Grow else Requisition
  }

  // ------------------------------------------------------- consumer steps

  ghost function Claim(s: State, t: Tid, n: nat): State
    requires t < |s.cons|
  {
    s.(head := s.head + n, cons := s.cons[t := LoadIndex(s.head, s.head + n)],
       holder := s.holder + seq(n, _ => t))
  }

  ghost function Consume(s: State, t: Tid): State
    requires Shaped(s) && t < |s.cons|
  {
    match s.cons[t]
    case Idle => s
    case LoadIndex(i, stop) =>
      s.(cons := s.cons[t := LoadFront(i, stop, s.cur)])
    case LoadFront(i, stop, h) =>
      var f := s.headers[h].front;
      if 0 <= f < s.headers[h].size then s.(cons := s.cons[t := LoadBase(i, stop, h, f, s.headers[h].top)]) else s
    case LoadBase(i, stop, h, f, _) =>
      var hd := s.headers[h];
      var offset := TruncDiv((i - i % BLOCK_SIZE) - hd.base[f], BLOCK_SIZE);
      s.(cons := s.cons[t := LoadBlock(i, stop, h, Mod(f + offset, hd.size))])
    case LoadBlock(i, stop, h, pos) =>
      s.(cons := s.cons[t := TakeElement(i, i, stop, h, pos, s.headers[h].block[pos])])
    case TakeElement(from, i, stop, h, pos, blk) =>
      s.(cons := s.cons[t := AfterTake(s.cons[t])])
    case SetEmpty(from, i, end, stop, h, pos, blk) =>
      if i == 0 then s else
      s.(flags := s.flags + {(blk, Flag(i - 1))}, done := s.done + {i - 1},
         cons := s.cons[t := AfterFlag(s.cons[t], s.headers[h].size)])
  }

  /** The element of index i has been taken; the last one of the block or of the range is followed by the flags. */
  function AfterTake(c: Consumer): Consumer
    requires c.TakeElement?
  {
    if c.i + 1 == c.stop || (c.i + 1) % BLOCK_SIZE == 0
    then SetEmpty(c.from, c.i + 1, c.i + 1, c.stop, c.h, c.pos, c.blk)
    else TakeElement(c.from, c.i + 1, c.stop, c.h, c.pos, c.blk)
  }

  /** The flag of index i - 1 has been set. After a block's flags a bulk dequeue goes on in the next slot. */
  function AfterFlag(c: Consumer, size: nat): Consumer
    requires c.SetEmpty? && c.i > 0 && size > 0
  {
    if c.from < c.i - 1 then SetEmpty(c.from, c.i - 1, c.end, c.stop, c.h, c.pos, c.blk)
    else if c.end == c.stop then Idle
    else LoadBlock(c.end, c.stop, c.h, Mod(c.pos + 1, size))
  }

  // ------------------------------------------------------------ invariant

  /** The oldest block number still in the producer's circle of blocks. */
  ghost function Oldest(s: State): int {
    |s.hist| - s.slotsUsed
  }

  predicate Storing(p: Producer) {
    p.StoreBase? || p.StoreBlock? || p.StoreFront?
  }

  /** How many block numbers the current index holds. */
  ghost function Indexed(s: State): int {
    |s.hist| - (if Storing(s.prod) then 1 else 0)
  }

  /** The circular list holds exactly the blocks numbered |hist| - used ..|hist|-1, in order. */
  ghost predicate RingOk(hist: seq<Block>, used: nat, tailBlock: Option<Block>, next: map<Block, Block>) {
    var n, lo := |hist|, |hist| - used;
    && 0 <= lo && (n > 0 <==> used > 0)
    && tailBlock == (if n > 0 then Some(hist[n-1]) else None)
    && (forall a, b :: lo <= a < b < n ==> hist[a] != hist[b])
    && (forall b :: lo <= b < n ==> hist[b] in next)
    && (forall b :: lo <= b < n - 1 ==> next[hist[b]] == hist[b+1])
    && (n > 0 ==> next[hist[n-1]] == hist[lo])
  }

  /** Where the producer stands between starting a block and publishing an element. */
  ghost predicate ProgressOk(s: State) {
    var n := |s.hist|;
    && s.head <= s.tail && |s.holder| == s.head
    && s.slotsUsed <= s.size && (n > 0 ==> s.cur >= 0)
    && match s.prod
       case Ready => s.tail <= n * BLOCK_SIZE < s.tail + BLOCK_SIZE
       case CheckEmpty(j) =>
         && s.tail == n * BLOCK_SIZE && n > 0 && 0 <= Oldest(s) < n
         && (forall f :: 0 <= f < j ==> (s.hist[Oldest(s)], f) in s.flags)
       case LoadHead => s.tail == n * BLOCK_SIZE
       case Grow => s.tail == n * BLOCK_SIZE && (s.cur < 0 || s.slotsUsed == s.size)
       case Requisition => s.tail == n * BLOCK_SIZE && s.cur >= 0 && s.slotsUsed < s.size
       case Construct => s.tail < n * BLOCK_SIZE <= s.tail + BLOCK_SIZE
       case StoreTail => s.tail < n * BLOCK_SIZE <= s.tail + BLOCK_SIZE
       case _ => s.tail == (n - 1) * BLOCK_SIZE
  }

  ghost predicate DoneOk(done: set<nat>, head: nat) {
    forall x :: x in done ==> x < head
  }

  /** The flags of the circle's blocks tell which elements are completed; older ones all are. */
  ghost predicate FlagsOk(hist: seq<Block>, lo: int, done: set<nat>, flags: set<(Block, nat)>) {
    && (forall x: nat :: x < lo * BLOCK_SIZE ==> x in done)
    && (forall x: nat :: lo * BLOCK_SIZE <= x < |hist| * BLOCK_SIZE ==> FlagOk(hist, done, flags, x))
  }

  ghost predicate FlagOk(hist: seq<Block>, done: set<nat>, flags: set<(Block, nat)>, x: nat) {
    x / BLOCK_SIZE < |hist| && ((hist[x / BLOCK_SIZE], Flag(x)) in flags <==> x in done)
  }

  /** Slot Pos(h, x) of header h describes block number x. */
  ghost predicate EntryOk(hist: seq<Block>, h: Header, x: nat) {
    && h.size > 0 && |h.base| == |h.block| == h.size && x < |hist|
    && h.base[Pos(h, x)] == x * BLOCK_SIZE && h.block[Pos(h, x)] == hist[x]
  }

  /** What a header, current or replaced, still tells about block numbers from `lo` on. */
  ghost predicate HeaderOk(hist: seq<Block>, lo: int, h: Header) {
    && h.size > 0 && 0 <= h.origin <= lo
    && -1 <= h.top < |hist| && h.top - lo < h.size
    && (h.top >= 0 ==> h.front == Pos(h, h.top))
    && (forall x :: lo <= x <= h.top ==> EntryOk(hist, h, x))
  }

  /** The producer's private cursor and what it has written so far. */
  ghost predicate CursorsOk(s: State)
    requires Shaped(s)
  {
    s.cur >= 0 ==>
      var hd := s.headers[s.cur];
      && hd.top == Indexed(s) - 1
      && s.front == Pos(hd, Indexed(s))
      && (s.prod.StoreBlock? || s.prod.StoreFront? ==> hd.base[s.front] == s.tail)
      && (s.prod.StoreFront? ==> hd.block[s.front] == s.tailBlock.value)
  }

  /** The first index that consumer state c has claimed and not completed. */
  function Begin(c: Consumer): nat {
    match c
    case Idle => 0
    case TakeElement(from, _, _, _, _, _) => from
    case LoadIndex(i, _) => i
    case LoadFront(i, _, _) => i
    case LoadBase(i, _, _, _, _) => i
    case LoadBlock(i, _, _, _) => i
    case SetEmpty(from, _, _, _, _, _, _) => from
  }

  function End(c: Consumer): nat {
    if c.Idle? then 0 else c.stop
  }

  /** Consumer state c has claimed index x and not completed it. */
  predicate Holds(c: Consumer, x: nat) {
    Begin(c) <= x < End(c) && !(c.SetEmpty? && c.i <= x < c.end)
  }

  /** Consumer t alone holds its claimed indices, and has not completed them. */
  ghost predicate HoldOk(holder: seq<Tid>, done: set<nat>, c: Consumer, t: Tid) {
    && (!c.Idle? ==> Holds(c, Begin(c)) && End(c) <= |holder|)
    && (forall x: nat :: Holds(c, x) && x < |holder| ==> holder[x] == t && x !in done)
  }

  /** Header h still covers the block numbers of the claimed range. */
  ghost predicate Covers(headers: seq<Header>, h: nat, stop: nat) {
    stop > 0 && h < |headers| && headers[h].size > 0 && (stop - 1) / BLOCK_SIZE <= headers[h].top
  }

  /** A consumer's header, slot and block are those of its next index. */
  ghost predicate PlaceOk(headers: seq<Header>, hist: seq<Block>, c: Consumer) {
    match c
    case LoadFront(i, stop, h) => Covers(headers, h, stop)
    case LoadBase(i, stop, h, f, k) =>
      Covers(headers, h, stop) && i / BLOCK_SIZE <= k <= headers[h].top && f == Pos(headers[h], k)
    case LoadBlock(i, stop, h, pos) =>
      Covers(headers, h, stop) && pos == Pos(headers[h], i / BLOCK_SIZE)
    case TakeElement(from, i, stop, h, pos, blk) =>
      && Covers(headers, h, stop) && pos == Pos(headers[h], from / BLOCK_SIZE)
      && from <= i < stop && from / BLOCK_SIZE == i / BLOCK_SIZE < |hist|
      && blk == hist[from / BLOCK_SIZE]
    case SetEmpty(from, i, end, stop, h, pos, blk) =>
      && Covers(headers, h, stop) && pos == Pos(headers[h], from / BLOCK_SIZE)
      && from < i <= end <= stop && from / BLOCK_SIZE == (end - 1) / BLOCK_SIZE < |hist|
      && (end == stop || end % BLOCK_SIZE == 0)
      && blk == hist[from / BLOCK_SIZE]
    case _ => true
  }

  ghost predicate HeadersOk(hist: seq<Block>, lo: int, headers: seq<Header>) {
    forall h {:trigger HeaderOk(hist, lo, headers[h])} :: 0 <= h < |headers| ==> HeaderOk(hist, lo, headers[h])
  }

  ghost predicate HoldsOk(holder: seq<Tid>, done: set<nat>, cons: seq<Consumer>) {
    forall t {:trigger HoldOk(holder, done, cons[t], t)} :: 0 <= t < |cons| ==> HoldOk(holder, done, cons[t], t)
  }

  ghost predicate PlacesOk(headers: seq<Header>, hist: seq<Block>, cons: seq<Consumer>) {
    forall t {:trigger PlaceOk(headers, hist, cons[t])} :: 0 <= t < |cons| ==> PlaceOk(headers, hist, cons[t])
  }

  /** Every claimed index is completed or held by the consumer that claimed it. */
  ghost predicate ClaimsOk(done: set<nat>, cons: seq<Consumer>, holder: seq<Tid>) {
    forall x :: 0 <= x < |holder| ==> x in done || (holder[x] < |cons| && Holds(cons[holder[x]], x))
  }

  ghost predicate Inv(s: State) {
    && Shaped(s) && ProgressOk(s) && CursorsOk(s)
    && RingOk(s.hist, s.slotsUsed, s.tailBlock, s.next)
    && DoneOk(s.done, s.head)
    && FlagsOk(s.hist, Oldest(s), s.done, s.flags)
    && HeadersOk(s.hist, Oldest(s), s.headers)
    && HoldsOk(s.holder, s.done, s.cons)
    && PlacesOk(s.headers, s.hist, s.cons)
    && ClaimsOk(s.done, s.cons, s.holder)
  }

  /** The pool supplies a block that is not in this producer's circle; module ExplicitQueue relates it to the free list. */
  ghost predicate Fresh(s: State, b: Block) {
    forall i :: 0 <= i < |s.hist| && Oldest(s) <= i ==> s.hist[i] != b
  }
}
