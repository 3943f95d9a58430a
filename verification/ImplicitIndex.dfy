/**
 The implicit producer: its block index, which consumers search while the
 producer inserts, rewinds and doubles it, and the release of finished blocks.

 One step is one access to memory that another thread may also access. Claiming
 an index range is a single step here; module ImplicitQueue puts the claim protocol
 in its place. The elements themselves are added in module ImplicitElements, and
 the free list behind the supply of blocks in module BlockPool. Indices are
 unbounded; module Wrap relates them to machine words.

 History variables, which no step uses to decide anything: `hist` (the block of
 each block number), `keyed` (how many block numbers have had their key
 written), `origin` and `top` of a header (the block number of slot 0 and of
 slot `tail`), `k` of a consumer, `done`, `holder`, `last` (which consumer
 completed a block), `nulled` and `freed` (block numbers taken out of the index
 and given back to the pool).
 */
module ImplicitIndex {
  import opened Common
  import opened Modular

  const INVALID_BLOCK_BASE: nat := 1

  type Tid = nat
  type Block = nat

  /** A pointer field; `Junk` is memory that was never initialised. */
  datatype Pointer = Null | To(block: Block) | Junk

  datatype Entry = Entry(key: nat, value: Pointer)

  /** The `index` array holds pointers to entries, shared with newer headers. */
  datatype Ring = Ring(capacity: nat, index: seq<nat>, origin: nat)

  datatype Header = Header(ring: Ring, tail: nat, top: int)

  datatype Producer =
    | Ready
    | LoadHead
    | Probe
    | Grow
    | StoreKey
    | StoreIndexTail
    | Requisition
    | Rewind
    | StoreNull
    | StoreValue(block: Block)
    | StoreTail

  /** A consumer whose next index to do is i, out of the claimed range up to `stop`. */
  datatype Consumer =
    | Idle
    | LoadIndex(i: nat, stop: nat)
    | LoadIndexTail(i: nat, stop: nat, h: nat)
    | LoadKey(i: nat, stop: nat, h: nat, pos: nat, k: int)
    | LoadValue(i: nat, stop: nat, h: nat, pos: nat)
    | AddCount(i: nat, stop: nat, h: nat, pos: nat, block: Block)
    | StoreNullEntry(i: nat, stop: nat, h: nat, pos: nat, block: Block, b: nat)
    | FreeBlock(i: nat, stop: nat, h: nat, pos: nat, block: Block, b: nat)

  datatype State = State(
    entries: seq<Entry>,
    headers: seq<Header>,
    cur: int,
    tail: nat,
    head: nat,
    count: map<Block, nat>,
    nextCapacity: nat,
    limit: Option<nat>,
    prod: Producer,
    cons: seq<Consumer>,
    hist: seq<Block>,
    keyed: nat,
    done: set<nat>,
    holder: seq<Tid>,
    last: map<nat, Tid>,
    nulled: set<nat>,
    freed: set<nat>)

  // ----------------------------------------------------------- vocabulary

  function Pos(r: Ring, x: int): nat
    requires r.capacity > 0
  {
    Mod(x - r.origin, r.capacity)
  }

  /** The entry that header h uses for block number x. */
  function Ent(r: Ring, x: int): nat
    requires r.capacity > 0 && |r.index| == r.capacity
  {
    r.index[Pos(r, x)]
  }

  ghost predicate RingShape(r: Ring, entries: nat) {
    && r.capacity > 0 && |r.index| == r.capacity
    && forall p :: 0 <= p < |r.index| ==> r.index[p] < entries
  }

  ghost predicate HeaderShape(h: Header, entries: nat) {
    RingShape(h.ring, entries) && h.tail < h.ring.capacity
  }

  ghost predicate HeaderShapes(headers: seq<Header>, entries: nat) {
    forall h :: 0 <= h < |headers| ==> HeaderShape(headers[h], entries)
  }

  ghost predicate SlotOk(headers: seq<Header>, h: nat, pos: nat) {
    h < |headers| && pos < headers[h].ring.capacity
  }

  ghost predicate RegistersOk(headers: seq<Header>, cur: int, c: Consumer) {
    match c
    case Idle => true
    case LoadIndex(_, _) => cur >= 0
    case LoadIndexTail(_, _, h) => h < |headers|
    case LoadKey(_, _, h, pos, _) => SlotOk(headers, h, pos)
    case LoadValue(_, _, h, pos) => SlotOk(headers, h, pos)
    case AddCount(_, _, h, pos, _) => SlotOk(headers, h, pos)
    case StoreNullEntry(_, _, h, pos, _, _) => SlotOk(headers, h, pos)
    case FreeBlock(_, _, h, pos, _, _) => SlotOk(headers, h, pos)
  }

  ghost predicate AllRegistersOk(headers: seq<Header>, cur: int, cons: seq<Consumer>) {
    forall t :: 0 <= t < |cons| ==> RegistersOk(headers, cur, cons[t])
  }

  predicate Inserting(p: Producer) {
    !p.Ready? && !p.LoadHead? && !p.StoreTail?
  }

  /** Registers are in range, so that every step is defined. */
  ghost predicate Shaped(s: State) {
    && -1 <= s.cur < |s.headers|
    && HeaderShapes(s.headers, |s.entries|) && AllRegistersOk(s.headers, s.cur, s.cons)
    && (Inserting(s.prod) ==> s.cur >= 0)
  }

  // ------------------------------------------------------- producer steps

  ghost function Enqueue(s: State): State {
    s.(prod := if s.tail % BLOCK_SIZE != 0 then StoreTail else LoadHead)
  }

  /** The slot after the newest one. */
  ghost function NewSlot(s: State): nat
    requires Shaped(s) && s.cur >= 0
  {
    Mod(s.headers[s.cur].tail + 1, s.headers[s.cur].ring.capacity)
  }

  ghost function NewEntry(s: State): nat
    requires Shaped(s) && s.cur >= 0
  {
    s.headers[s.cur].ring.index[NewSlot(s)]
  }

  /** The entry of slot `tail`, which `idxEntry` points to once the tail has been stored. */
  ghost function TailEntry(s: State): nat
    requires Shaped(s) && s.cur >= 0
  {
    s.headers[s.cur].ring.index[s.headers[s.cur].tail]
  }

  ghost function SetTail(s: State, tail: nat, top: int): seq<Header>
    requires Shaped(s) && s.cur >= 0
  {
    s.headers[s.cur := s.headers[s.cur].(tail := tail, top := top)]
  }

  /** Double the index: old entries first, oldest first, then as many new ones. */
  ghost function Doubled(s: State): Header
    requires Shaped(s) && s.cur >= 0
  {
    var p := s.headers[s.cur];
    Header(Ring(s.nextCapacity,
                seq(p.ring.capacity, i requires 0 <= i < p.ring.capacity => p.ring.index[Mod(p.tail + 1 + i, p.ring.capacity)])
                + seq<nat>(p.ring.capacity, i requires 0 <= i < p.ring.capacity => |s.entries| + i),
                if p.top + 1 < p.ring.capacity then 0 else p.top + 1 - p.ring.capacity),
           if s.nextCapacity > 0 then Mod(p.ring.capacity - 1, s.nextCapacity) else 0, p.top)
  }

  ghost function Grown(s: State): State
    requires Shaped(s) && s.cur >= 0
  {
    s.(headers := s.headers + [Doubled(s)], cur := |s.headers|, nextCapacity := 2 * s.nextCapacity,
       entries := s.entries + Unused(s.headers[s.cur].ring.capacity), prod := StoreKey)
  }

  /** New entries; their values are not initialised. */
  ghost function Unused(n: nat): seq<Entry> {
    seq(n, _ => Entry(INVALID_BLOCK_BASE, Junk))
  }

  /** What the producer does after loading the head index: give up when there is not enough leeway. */
  ghost function AfterHead(s: State): Producer {
    if !(s.head < s.tail + BLOCK_SIZE)
       || (s.limit.Some? && (s.limit.value == 0 || s.limit.value - BLOCK_SIZE < s.tail - s.head))
       || s.cur < 0
    then Ready
    else Probe
  }

  /** `ok`: memory allocation succeeds; `supplied`: the block the pool gives. */
  ghost function Produce(s: State, ok: bool, supplied: Block): State
    requires Shaped(s)
  {
    match s.prod
    case Ready => s
    case LoadHead => s.(prod := AfterHead(s))
    case Probe =>
      var e := s.entries[NewEntry(s)];
      s.(prod := if e.key == INVALID_BLOCK_BASE || e.value == Null then StoreKey else Grow)
    case Grow =>
      if ok then Grown(s) else s.(prod := Ready)
    case StoreKey =>
      var e := NewEntry(s);
      s.(entries := s.entries[e := s.entries[e].(key := s.tail)], prod := StoreIndexTail, keyed := |s.hist| + 1)
    case StoreIndexTail =>
      s.(headers := SetTail(s, NewSlot(s), s.headers[s.cur].top + 1), prod := Requisition)
    case Requisition =>
      if ok then s.(prod := StoreValue(supplied), count := s.count[supplied := 0])
      else s.(prod := Rewind)
    case Rewind =>
      var h := s.headers[s.cur];
      s.(headers := SetTail(s, Mod(h.tail - 1, h.ring.capacity), h.top - 1), prod := StoreNull)
    case StoreNull =>
      var e := NewEntry(s);
      s.(entries := s.entries[e := s.entries[e].(value := Null)], prod := Ready)
    case StoreValue(block) =>
      var e := TailEntry(s);
      s.(entries := s.entries[e := s.entries[e].(value := To(block))], prod := StoreTail, hist := s.hist + [block])
    case StoreTail =>
      s.(tail := s.tail + 1, prod := Ready)
  }

  // ------------------------------------------------------- consumer steps

  ghost function Claim(s: State, t: Tid, n: nat): State
    requires t < |s.cons|
  {
    s.(head := s.head + n, cons := s.cons[t := LoadIndex(s.head, s.head + n)],
       holder := s.holder + seq(n, _ => t))
  }

  /** Where the part of [i, stop) that lies in i's block ends. */
  function BlockEnd(i: nat, stop: nat): nat {
    if stop < i - i % BLOCK_SIZE + BLOCK_SIZE then stop else i - i % BLOCK_SIZE + BLOCK_SIZE
  }

  function Onward(i: nat, stop: nat, h: nat, pos: nat, capacity: nat): Consumer
    requires capacity > 0
  {
    if i >= stop then Idle else LoadValue(i, stop, h, Mod(pos + 1, capacity))
  }

  ghost function Range(a: nat, b: nat): (r: set<nat>)
    ensures forall x :: x in r <==> a <= x < b
  {
    if a >= b then {} else Range(a, b - 1) + {b - 1}
  }

  /** Where consumer t goes after its count: to release the block if that completed it. */
  ghost function AfterCount(s: State, t: Tid): Consumer
    requires Shaped(s) && t < |s.cons| && s.cons[t].AddCount? && s.cons[t].block in s.count
  {
    var c := s.cons[t];
    var end := BlockEnd(c.i, c.stop);
    if s.count[c.block] + (end - c.i) == BLOCK_SIZE then StoreNullEntry(end, c.stop, c.h, c.pos, c.block, c.i / BLOCK_SIZE)
    else Onward(end, c.stop, c.h, c.pos, s.headers[c.h].ring.capacity)
  }

  /** The state after consumer t has added to its block's count and gone on to c'. */
  ghost function Counted(s: State, t: Tid, c': Consumer): State
    requires t < |s.cons| && s.cons[t].AddCount? && s.cons[t].block in s.count
    requires s.cons[t].i <= BlockEnd(s.cons[t].i, s.cons[t].stop)
  {
    var c := s.cons[t];
    var end := BlockEnd(c.i, c.stop);
    s.(count := s.count[c.block := s.count[c.block] + (end - c.i)], done := s.done + Range(c.i, end),
       last := if c'.StoreNullEntry? then s.last[c.i / BLOCK_SIZE := t] else s.last, cons := s.cons[t := c'])
  }

  ghost function Consume(s: State, t: Tid): State
    requires Shaped(s) && t < |s.cons|
  {
    match s.cons[t]
    case Idle => s
    case LoadIndex(i, stop) =>
      s.(cons := s.cons[t := LoadIndexTail(i, stop, s.cur)])
    case LoadIndexTail(i, stop, h) =>
      s.(cons := s.cons[t := LoadKey(i, stop, h, s.headers[h].tail, s.headers[h].top)])
    case LoadKey(i, stop, h, pos, _) =>
      var hd := s.headers[h];
      var offset := TruncDiv((i - i % BLOCK_SIZE) - s.entries[hd.ring.index[pos]].key, BLOCK_SIZE);
      s.(cons := s.cons[t := LoadValue(i, stop, h, Mod(pos + offset, hd.ring.capacity))])
    case LoadValue(i, stop, h, pos) =>
      var v := s.entries[s.headers[h].ring.index[pos]].value;
      if v.To? then s.(cons := s.cons[t := AddCount(i, stop, h, pos, v.block)]) else s
    case AddCount(i, stop, h, pos, block) =>
      if block !in s.count || BlockEnd(i, stop) < i then s else Counted(s, t, AfterCount(s, t))
    case StoreNullEntry(i, stop, h, pos, block, b) =>
      var e := s.headers[h].ring.index[pos];
      s.(entries := s.entries[e := s.entries[e].(value := Null)], nulled := s.nulled + {b},
         cons := s.cons[t := FreeBlock(i, stop, h, pos, block, b)])
    case FreeBlock(i, stop, h, pos, block, b) =>
      s.(freed := s.freed + {b}, cons := s.cons[t := Onward(i, stop, h, pos, s.headers[h].ring.capacity)])
  }

  // ------------------------------------------------------------ invariant

  /** Block numbers from here on may still be looked up. */
  ghost function Live(r: Ring, keyed: int): nat {
    if r.origin < keyed - r.capacity then keyed - r.capacity else r.origin
  }

  ghost predicate Injective(index: seq<nat>) {
    forall p, q :: 0 <= p < q < |index| ==> index[p] != index[q]
  }

  /** The entry of block number b names b. */
  ghost predicate Keyed(entries: seq<Entry>, r: Ring, b: nat)
    requires RingShape(r, |entries|)
  {
    entries[Ent(r, b)].key == b * BLOCK_SIZE
  }

  ghost predicate Unkeyed(entries: seq<Entry>, r: Ring, b: nat)
    requires RingShape(r, |entries|)
  {
    entries[Ent(r, b)].key == INVALID_BLOCK_BASE
  }

  /** The keys of the current header: used slots name their block, unused ones are invalid. */
  ghost predicate KeysOk(entries: seq<Entry>, r: Ring, keyed: nat) {
    && RingShape(r, |entries|)
    && (forall b: nat :: Live(r, keyed) <= b < keyed ==> Keyed(entries, r, b))
    && (forall b: nat :: keyed <= b < r.origin + r.capacity ==> Unkeyed(entries, r, b))
  }

  /** The entry of block number b points to its block until the block leaves the index. */
  ghost predicate Valued(entries: seq<Entry>, r: Ring, hist: seq<Block>, nulled: set<nat>, b: nat)
    requires RingShape(r, |entries|) && b < |hist|
  {
    entries[Ent(r, b)].value == if b in nulled then Null else To(hist[b])
  }

  ghost predicate ValuesOk(entries: seq<Entry>, r: Ring, keyed: nat, hist: seq<Block>, nulled: set<nat>) {
    && RingShape(r, |entries|)
    && forall b: nat :: Live(r, keyed) <= b < |hist| ==> Valued(entries, r, hist, nulled, b)
  }

  /** Blocks leave the index before they are freed, and only when completed. */
  ghost predicate SetsOk(nulled: set<nat>, freed: set<nat>, last: map<nat, Tid>) {
    && (forall b :: b in freed ==> b in nulled)
    && (forall b :: b in nulled ==> b in last)
  }

  ghost predicate NulledOk(nulled: set<nat>, live: int) {
    forall b: nat :: b < live ==> b in nulled
  }

  /** A header, current or replaced, uses the current header's entries for live blocks. */
  ghost predicate LinkOk(h: Header, c: Header, live: int) {
    && h.ring.capacity > 0 && |h.ring.index| == h.ring.capacity && c.ring.capacity > 0 && |c.ring.index| == c.ring.capacity
    && h.ring.origin <= live && -1 <= h.top && h.top - live < h.ring.capacity
    && h.tail == Pos(h.ring, h.top)
    && forall b :: live <= b <= h.top ==> Ent(h.ring, b) == Ent(c.ring, b)
  }

  ghost predicate TopsOk(headers: seq<Header>, keyed: nat) {
    forall h :: 0 <= h < |headers| ==> headers[h].top < keyed
  }

  ghost predicate LinksOk(headers: seq<Header>, cur: nat, live: int) {
    cur < |headers| && forall h {:trigger LinkOk(headers[h], headers[cur], live)} :: 0 <= h < |headers| ==> LinkOk(headers[h], headers[cur], live)
  }

  ghost function DoneSet(done: set<nat>, b: nat): set<nat> {
    set x | x in done && x / BLOCK_SIZE == b
  }

  /** How many elements of block number b are completed. */
  ghost function DoneIn(done: set<nat>, b: nat): nat {
    |DoneSet(done, b)|
  }

  ghost predicate CountsOk(hist: seq<Block>, freed: set<nat>, done: set<nat>, count: map<Block, nat>) {
    forall b :: 0 <= b < |hist| && b !in freed ==> hist[b] in count && count[hist[b]] == DoneIn(done, b)
  }

  /** Blocks in use have different numbers. */
  ghost predicate Distinct(hist: seq<Block>, freed: set<nat>) {
    forall a, b :: 0 <= a < b < |hist| && a !in freed && b !in freed ==> hist[a] != hist[b]
  }

  ghost predicate LastOk(last: map<nat, Tid>, hist: seq<Block>, done: set<nat>) {
    forall b: nat :: b in last <==> b < |hist| && DoneIn(done, b) == BLOCK_SIZE
  }

  predicate Releasing(c: Consumer, b: nat) {
    (c.StoreNullEntry? || c.FreeBlock?) && c.b == b
  }

  /** A completed block is freed or in the hands of the consumer that completed it. */
  ghost predicate ReleasesOk(last: map<nat, Tid>, freed: set<nat>, cons: seq<Consumer>) {
    forall b :: b in last && b !in freed ==> last[b] < |cons| && Releasing(cons[last[b]], b)
  }

  function Begin(c: Consumer): nat {
    if c.Idle? then 0 else c.i
  }

  function End(c: Consumer): nat {
    if c.Idle? then 0 else c.stop
  }

  predicate Holds(c: Consumer, x: nat) {
    Begin(c) <= x < End(c)
  }

  ghost predicate HoldOk(holder: seq<Tid>, done: set<nat>, c: Consumer, t: Tid) {
    && Begin(c) <= End(c) <= |holder|
    && (forall x :: Begin(c) <= x < End(c) && x < |holder| ==> holder[x] == t && x !in done)
  }

  ghost predicate HoldsOk(holder: seq<Tid>, done: set<nat>, cons: seq<Consumer>) {
    forall t {:trigger HoldOk(holder, done, cons[t], t)} :: 0 <= t < |cons| ==> HoldOk(holder, done, cons[t], t)
  }

  ghost predicate DoneOk(done: set<nat>, head: nat) {
    forall x :: x in done ==> x < head
  }

  /** Header h covers the block numbers of the claimed range. */
  ghost predicate Covers(headers: seq<Header>, hist: seq<Block>, h: nat, stop: nat) {
    && stop > 0 && h < |headers| && headers[h].ring.capacity > 0
    && (stop - 1) / BLOCK_SIZE <= headers[h].top && (stop - 1) / BLOCK_SIZE < |hist|
  }

  ghost predicate PlaceOk(headers: seq<Header>, cur: int, hist: seq<Block>, keyed: nat, c: Consumer) {
    match c
    case Idle => true
    case LoadIndex(i, stop) => i < stop && (stop - 1) / BLOCK_SIZE < |hist|
    case LoadIndexTail(i, stop, h) => i < stop && Covers(headers, hist, h, stop)
    case LoadKey(i, stop, h, pos, k) =>
      && i < stop && Covers(headers, hist, h, stop)
      && i / BLOCK_SIZE <= k < keyed && (h == cur || k <= headers[h].top)
      && pos == Pos(headers[h].ring, k)
    case LoadValue(i, stop, h, pos) =>
      i < stop && Covers(headers, hist, h, stop) && pos == Pos(headers[h].ring, i / BLOCK_SIZE)
    case AddCount(i, stop, h, pos, block) =>
      && i < stop && Covers(headers, hist, h, stop) && pos == Pos(headers[h].ring, i / BLOCK_SIZE)
      && block == hist[i / BLOCK_SIZE]
    case StoreNullEntry(i, stop, h, pos, block, b) => ReleasePlace(headers, hist, c)
    case FreeBlock(i, stop, h, pos, block, b) => ReleasePlace(headers, hist, c)
  }

  /** A consumer about to release block number b stands in b's slot. */
  ghost predicate ReleasePlace(headers: seq<Header>, hist: seq<Block>, c: Consumer)
    requires c.StoreNullEntry? || c.FreeBlock?
  {
    && Covers(headers, hist, c.h, c.stop) && c.b <= (c.stop - 1) / BLOCK_SIZE
    && c.pos == Pos(headers[c.h].ring, c.b) && c.block == hist[c.b]
    && (c.i < c.stop ==> c.i == (c.b + 1) * BLOCK_SIZE)
  }

  ghost predicate PlacesOk(headers: seq<Header>, cur: int, hist: seq<Block>, keyed: nat, cons: seq<Consumer>) {
    forall t {:trigger PlaceOk(headers, cur, hist, keyed, cons[t])} ::
      0 <= t < |cons| ==> PlaceOk(headers, cur, hist, keyed, cons[t])
  }

  /** A consumer releasing a block is the one that completed it, and has not done so before. */
  ghost predicate DutyOk(last: map<nat, Tid>, nulled: set<nat>, freed: set<nat>, c: Consumer, t: Tid) {
    match c
    case StoreNullEntry(_, _, _, _, _, b) => b in last && last[b] == t && b !in nulled
    case FreeBlock(_, _, _, _, _, b) => b in last && last[b] == t && b in nulled && b !in freed
    case _ => true
  }

  ghost predicate DutiesOk(last: map<nat, Tid>, nulled: set<nat>, freed: set<nat>, cons: seq<Consumer>) {
    forall t {:trigger DutyOk(last, nulled, freed, cons[t], t)} :: 0 <= t < |cons| ==> DutyOk(last, nulled, freed, cons[t], t)
  }

  ghost predicate ClaimsOk(done: set<nat>, cons: seq<Consumer>, holder: seq<Tid>) {
    forall x :: 0 <= x < |holder| ==> x in done || (holder[x] < |cons| && Holds(cons[holder[x]], x))
  }

  /** The pool supplies a block that is not in use; module BlockPool derives it from the free list. */
  ghost predicate Fresh(s: State, b: Block) {
    forall i :: 0 <= i < |s.hist| && i !in s.freed ==> s.hist[i] != b
  }

  /** Where the producer stands between reaching a block boundary and publishing an element. */
  ghost predicate ProgressOk(s: State)
    requires Shaped(s)
  {
    var n := |s.hist|;
    && s.head <= s.tail && |s.holder| == s.head
    && n <= s.keyed <= n + 1
    && (n > 0 ==> s.cur >= 0)
    && (s.prod == Ready ==> s.tail <= n * BLOCK_SIZE < s.tail + BLOCK_SIZE)
    && (s.prod == StoreTail ==> s.tail < n * BLOCK_SIZE <= s.tail + BLOCK_SIZE)
    && (s.prod != Ready && s.prod != StoreTail ==> s.tail == n * BLOCK_SIZE)
    && (s.cur < 0 ==> s.keyed == 0)
    && (s.cur >= 0 ==>
         var hd := s.headers[s.cur];
         && s.nextCapacity == 2 * hd.ring.capacity && hd.ring.origin <= n
         && hd.top == (if s.prod in {Requisition, Rewind} || s.prod.StoreValue? then n else n - 1)
         && (s.prod in {StoreIndexTail, Requisition, Rewind, StoreNull} || s.prod.StoreValue? ==> s.keyed == n + 1)
         && (s.prod == Grow ==> s.keyed == n && n - hd.ring.origin >= hd.ring.capacity)
         && (s.prod == StoreKey ==> s.keyed == n + 1 || n - hd.ring.origin < hd.ring.capacity || n - hd.ring.capacity in s.nulled)
         && (s.prod in {Ready, LoadHead, Probe, StoreTail} && s.keyed == n + 1 ==> s.entries[Ent(hd.ring, n)].value == Null)
         && (s.prod.StoreValue? ==> Fresh(s, s.prod.block) && s.prod.block in s.count && s.count[s.prod.block] == 0))
  }

  /** The current header describes the live blocks, and every header leads to its entries. */
  ghost predicate IndexOk(entries: seq<Entry>, headers: seq<Header>, cur: int, keyed: nat, hist: seq<Block>, nulled: set<nat>) {
    cur >= 0 ==>
      && cur < |headers|
      && Injective(headers[cur].ring.index)
      && KeysOk(entries, headers[cur].ring, keyed)
      && ValuesOk(entries, headers[cur].ring, keyed, hist, nulled)
      && NulledOk(nulled, Live(headers[cur].ring, keyed))
      && LinksOk(headers, cur, Live(headers[cur].ring, keyed))
      && TopsOk(headers, keyed)
  }

  ghost predicate Inv(s: State) {
    && Shaped(s) && ProgressOk(s) && IndexOk(s.entries, s.headers, s.cur, s.keyed, s.hist, s.nulled)
    && CountsOk(s.hist, s.freed, s.done, s.count)
    && Distinct(s.hist, s.freed)
    && LastOk(s.last, s.hist, s.done)
    && SetsOk(s.nulled, s.freed, s.last)
    && ReleasesOk(s.last, s.freed, s.cons)
    && DoneOk(s.done, s.head)
    && HoldsOk(s.holder, s.done, s.cons)
    && PlacesOk(s.headers, s.cur, s.hist, s.keyed, s.cons)
    && DutiesOk(s.last, s.nulled, s.freed, s.cons)
    && ClaimsOk(s.done, s.cons, s.holder)
  }
}
